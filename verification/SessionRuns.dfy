/** What holds in every run of the session mux. */
module SessionRuns {
  import opened Words
  import opened Values
  import opened Frames
  import Delivery
  import opened Session

  // ---- the loops over a range --------------------------------------------------------

  /** The uint32 counter of a loop on its k-th pass. */
  function Counter(start: uint32, k: nat): (n: uint32) {
    Wrap(start + k)
  }

  /** A loop from start while the counter is at most end stops exactly when end is not the largest uint32. */
  lemma {:induction false} RangeLoopEnds(start: uint32, end: uint32)
    ensures (exists k: nat :: Counter(start, k) > end) <==> end < MOD32 - 1
  {
    if end < MOD32 - 1 {
      assert Counter(start, MOD32 - 1 - start) == MOD32 - 1;
    }
  }

  // ---- shutdown ----------------------------------------------------------------------

  /** At most one End, nothing after it; endSent is closed exactly when closing started here. */
  predicate EndOnce(l: Life) {
    && l.endSent == l.closing && !l.panicked
    && (forall k | 0 <= k < |l.sent| :: l.sent[k].SentEnd? ==> k == |l.sent| - 1 && (l.closing || l.exited))
    && (l.closing ==> l.sent != [] && l.sent[|l.sent| - 1].SentEnd?)
  }

  predicate Writes(e: Event) {
    e.TxTransfer? && e.outcome.Written?
  }

  /** What a step may do to the handshake and to the frames written. */
  ghost predicate LifeStep(l: Life, r: Life, writes: bool) {
    if writes then !l.closing && exists t :: r == Send(l, SentTransfer(t))
    else
      || r == l
      || (exists f :: r == CloseWithError(l, f))
      || (!l.closing && exists f: Sent :: !f.SentEnd? && !f.SentTransfer? && r == Send(l, f))
      || (!l.closing && r == EndNow(l, None))
      || (exists v :: r == EndReceived(l, v))
      || r == l.(doneErr := Some(ConnectionError), exited := true)
  }

  lemma {:induction false} SettleLife(st: Mux, d: Disposition, id: int)
    requires 0 <= id <= MOD32
    ensures var r := SettleFrom(st, d, id);
            && r.windows == st.windows
            && (r.life == st.life || r.life == CloseWithError(st.life, UnknownDisposition))
    decreases MOD32 - id
  {
    hide Complete;
    if id <= Last(d) { SettleLife(SettleAt(st, d, id), d, id + 1); }
  }

  lemma {:induction false} StepLife(st: Mux, e: Event)
    requires Enabled(st, e)
    ensures LifeStep(st.life, Step(st, e).life, Writes(e))
  {
    hide SettleFrom, ConfirmFrom, EndNow, CloseWithError, EndReceived, Send, AwaitCompletion, Number;
    var l, r := st.life, Step(st, e).life;
    match e {
      case RxDisposition(d) => SettleLife(st, d, d.first);
      case RxFlow(f) =>
        assert r == l || r == CloseWithError(l, NoNextIncomingId) || r == CloseWithError(l, UnknownFlow)
               || (!l.closing && exists f: Flow :: r == Send(l, SentFlow(f)));
      case RxTransfer(t, second) =>
        assert r == l || r == CloseWithError(l, UnknownTransfer)
               || (!l.closing && exists f: Flow :: r == Send(l, SentFlow(f)));
      case _ =>
    }
  }

  lemma {:induction false} EndOnceStep(l: Life, r: Life, writes: bool)
    requires EndOnce(l) && !l.exited && LifeStep(l, r, writes)
    ensures EndOnce(r)
  {
  }

  /** Shutdown safety over whole runs. */
  lemma {:induction false} EndOnceRun(st: Mux, es: seq<Event>)
    requires EndOnce(st.life) && ValidRun(st, es)
    ensures EndOnce(Run(st, es).life)
    decreases |es|
  {
    hide Step, EndOnce, LifeStep;
    if es != [] {
      StepLife(st, es[0]);
      EndOnceStep(st.life, Step(st, es[0]).life, Writes(es[0]));
      EndOnceRun(Step(st, es[0]), es[1..]);
    }
  }

  /**
   The peer's End, after any run: the mux leaves having sent exactly one End, its last frame,
   whichever side began, and the error it reports is its own if it began.
   */
  lemma {:induction false} EndAnswered(st: Mux, es: seq<Event>, error: Value)
    requires ValidRun(st, es) && EndOnce(st.life) && Enabled(Run(st, es), RxEnd(error))
    ensures var was, l := Run(st, es).life, Step(Run(st, es), RxEnd(error)).life;
            && l.exited && !l.panicked && l.sent != []
            && (forall k | 0 <= k < |l.sent| :: l.sent[k].SentEnd? <==> k == |l.sent| - 1)
            && l.doneErr == if was.closing || error == Null then was.doneErr else Some(RemoteError(error))
  {
    EndOnceRun(st, es);
  }

  /** The error that started closing stays the session's error, unless the connection ends. */
  lemma {:induction false} FirstErrorSurvives(st: Mux, es: seq<Event>)
    requires ValidRun(st, es) && st.life.closing && forall k | 0 <= k < |es| :: !es[k].ConnDone?
    ensures var l := Run(st, es).life;
            l.closing && l.doneErr == st.life.doneErr && l.sent == st.life.sent
    decreases |es|
  {
    hide Step, Enabled;
    if es != [] {
      ClosingStep(st, es[0]);
      FirstErrorSurvives(Step(st, es[0]), es[1..]);
    }
  }

  lemma {:induction false} ClosingStep(st: Mux, e: Event)
    requires Enabled(st, e) && st.life.closing && !e.ConnDone?
    ensures var l := Step(st, e).life;
            l.closing && l.doneErr == st.life.doneErr && l.sent == st.life.sent
  {
    hide SettleFrom, Complete, Number, AwaitCompletion;
    if e.RxDisposition? { SettleLife(st, e.disposition, e.disposition.first); }
  }

  // ---- completion channels -----------------------------------------------------------

  predicate Covers(d: Disposition, id: uint32) {
    d.first <= id <= Last(d)
  }

  /** A completed channel is closed, and holds the state its disposition brought and no other. */
  predicate Settled(g: Ledger, x: Completion) {
    && x.channel in g.channels && g.channels[x.channel].closed
    && match x.cause
       case BySender => g.channels[x.channel].buffer == None
       case ByReceiver(d) =>
         d.settled && d.role && Covers(d, x.id) && g.channels[x.channel].buffer == Some(d.state)
       case ByConfirmation(d) =>
         d.settled && !d.role && Covers(d, x.id) && g.channels[x.channel].buffer == Some(d.state)
  }

  predicate Waiting(g: Ledger, id: uint32)
    requires id in g.settlements
  {
    g.settlements[id] in g.channels && g.channels[g.settlements[id]] == Channel(None, false)
  }

  /** The channels awaited are open, empty and distinct; those completed were completed once. */
  predicate Sound(g: Ledger) {
    && !g.panicked
    && (forall id | id in g.settlements :: Waiting(g, id))
    && (forall i, j | i in g.settlements && j in g.settlements :: g.settlements[i] == g.settlements[j] ==> i == j)
    && (forall k | 0 <= k < |g.completions| :: Settled(g, g.completions[k]))
    && (forall i, j | 0 <= i < j < |g.completions| :: g.completions[i].channel != g.completions[j].channel)
    && (forall c | c in g.channels && g.channels[c].closed :: WasCompleted(g, c))
  }

  predicate WasCompleted(g: Ledger, c: nat) {
    exists k :: 0 <= k < |g.completions| && g.completions[k].channel == c
  }

  /** Closing an open, empty channel nobody waits for any more. */
  lemma {:induction false} CloseKeeps(g: Ledger, state: Option<Value>, x: Completion)
    requires Sound(g) && x.channel in g.channels && g.channels[x.channel] == Channel(None, false)
    requires forall id | id in g.settlements :: g.settlements[id] != x.channel
    requires Settled(g.(channels := g.channels[x.channel := Channel(state, true)]), x)
    ensures Sound(CloseChannel(g, state, x))
  {
    var r := CloseChannel(g, state, x);
    forall k | 0 <= k < |r.completions| ensures Settled(r, r.completions[k]) {
      if k < |g.completions| { assert Settled(g, g.completions[k]); }
    }
    forall id | id in r.settlements ensures Waiting(r, id) { assert Waiting(g, id); }
    forall c | c in r.channels && r.channels[c].closed ensures WasCompleted(r, c) {
      if c == x.channel {
        assert r.completions[|g.completions|].channel == c;
      } else {
        assert WasCompleted(g, c);
        var k :| 0 <= k < |g.completions| && g.completions[k].channel == c;
        assert r.completions[k].channel == c;
      }
    }
  }

  lemma {:induction false} CompleteKeeps(g: Ledger, id: uint32, cause: Cause)
    requires Sound(g) && !cause.BySender? && Covers(cause.disposition, id)
    requires cause.disposition.settled && cause.disposition.role == cause.ByReceiver?
    ensures Sound(Complete(g, id, cause))
  {
    hide CloseChannel;
    if id in g.settlements {
      assert Waiting(g, id);
      var h := g.(settlements := g.settlements - {id});
      forall i | i in h.settlements ensures Waiting(h, i) { assert Waiting(g, i); }
      forall k | 0 <= k < |h.completions| ensures Settled(h, h.completions[k]) { assert Settled(g, g.completions[k]); }
      forall c | c in h.channels && h.channels[c].closed ensures WasCompleted(h, c) {
        assert WasCompleted(g, c);
        var k :| 0 <= k < |g.completions| && g.completions[k].channel == c;
        assert h.completions[k].channel == c;
      }
      CloseKeeps(h, Some(cause.disposition.state), Completion(g.settlements[id], id, cause));
    }
  }

  lemma {:induction false} SettleSound(st: Mux, d: Disposition, id: int)
    requires 0 <= id <= MOD32 && Sound(st.ledger) && d.first <= id
    ensures Sound(SettleFrom(st, d, id).ledger)
    decreases MOD32 - id
  {
    hide Sound, Complete, CloseWithError;
    if id <= Last(d) {
      if d.settled && d.role { CompleteKeeps(st.ledger, id, ByReceiver(d)); }
      SettleSound(SettleAt(st, d, id), d, id + 1);
    }
  }

  lemma {:induction false} ConfirmSound(g: Ledger, d: Disposition, id: int)
    requires 0 <= id <= MOD32 && Sound(g) && d.first <= id && d.settled && !d.role
    ensures Sound(ConfirmFrom(g, d, id))
    decreases MOD32 - id
  {
    hide Sound, Complete;
    if id <= Last(d) {
      CompleteKeeps(g, id, ByConfirmation(d));
      ConfirmSound(Complete(g, id, ByConfirmation(d)), d, id + 1);
    }
  }

  lemma {:induction false} AwaitKeeps(g: Ledger, id: uint32, done: nat, settled: bool)
    requires Sound(g) && done !in g.channels
    ensures Sound(AwaitCompletion(g, id, done, settled))
  {
    var h := g.(channels := g.channels[done := Channel(None, false)]);
    forall i | i in g.settlements ensures Waiting(h, i) && g.settlements[i] != done { assert Waiting(g, i); }
    forall k | 0 <= k < |h.completions| ensures Settled(h, h.completions[k]) { assert Settled(g, g.completions[k]); }
    forall c | c in h.channels && h.channels[c].closed ensures WasCompleted(h, c) {
      assert WasCompleted(g, c);
      var k :| 0 <= k < |g.completions| && g.completions[k].channel == c;
      assert h.completions[k].channel == c;
    }
    if settled {
      CloseKeeps(h, None, Completion(done, id, BySender));
    } else {
      AddWaiting(h, id, done);
    }
  }

  lemma {:induction false} AddWaiting(h: Ledger, id: uint32, done: nat)
    requires Sound(h) && done in h.channels && h.channels[done] == Channel(None, false)
    requires forall i | i in h.settlements :: h.settlements[i] != done
    ensures Sound(h.(settlements := h.settlements[id := done]))
  {
    var r := h.(settlements := h.settlements[id := done]);
    forall i | i in r.settlements ensures Waiting(r, i) {
      if i != id { assert Waiting(h, i); }
    }
    forall k | 0 <= k < |r.completions| ensures Settled(r, r.completions[k]) { assert Settled(h, h.completions[k]); }
    forall c | c in r.channels && r.channels[c].closed ensures WasCompleted(r, c) {
      assert WasCompleted(h, c);
      var k :| 0 <= k < |h.completions| && h.completions[k].channel == c;
      assert r.completions[k].channel == c;
    }
  }

  lemma {:induction false} SoundStep(st: Mux, e: Event)
    requires Sound(st.ledger) && Enabled(st, e)
    ensures Sound(Step(st, e).ledger)
  {
    hide Sound, SettleFrom, ConfirmFrom, AwaitCompletion, Number, CloseWithError, EndNow, Stamped;
    match e {
      case RxDisposition(d) => SettleSound(st, d, d.first);
      case TxDisposition(d) => if d.settled && !d.role { ConfirmSound(st.ledger, d, d.first); }
      case TxTransfer(env, inputHandle, done, outcome) =>
        if env.completes { AwaitKeeps(st.ledger, IdFor(st.tables, env), done, env.frame.settled); }
      case _ =>
    }
  }

  /**
   In every run each completion channel is closed at most once and only by a settled transfer or
   a settled disposition that covers its delivery, it holds that disposition's state, and nothing
   panics.
   */
  lemma {:induction false} SoundRun(st: Mux, es: seq<Event>)
    requires Sound(st.ledger) && ValidRun(st, es)
    ensures Sound(Run(st, es).ledger)
    decreases |es|
  {
    hide Step, Sound, Enabled;
    if es != [] {
      SoundStep(st, es[0]);
      SoundRun(Step(st, es[0]), es[1..]);
    }
  }

  /** Completions are only ever added: what completed a channel is never revised. */
  lemma {:induction false} CompletionsGrow(st: Mux, es: seq<Event>)
    requires Sound(st.ledger) && ValidRun(st, es)
    ensures st.ledger.completions <= Run(st, es).ledger.completions
    decreases |es|
  {
    hide Step, Enabled, Sound;
    if es != [] {
      StepGrows(st, es[0]);
      SoundStep(st, es[0]);
      CompletionsGrow(Step(st, es[0]), es[1..]);
    }
  }

  lemma {:induction false} StepGrows(st: Mux, e: Event)
    ensures st.ledger.completions <= Step(st, e).ledger.completions
  {
    hide SettleFrom, ConfirmFrom, Number, CloseWithError, EndNow, Stamped;
    match e {
      case RxDisposition(d) => SettleGrows(st, d, d.first);
      case TxDisposition(d) => ConfirmGrows(st.ledger, d, d.first);
      case _ =>
    }
  }

  lemma {:induction false} SettleGrows(st: Mux, d: Disposition, id: int)
    requires 0 <= id <= MOD32
    ensures st.ledger.completions <= SettleFrom(st, d, id).ledger.completions
    decreases MOD32 - id
  {
    hide CloseWithError;
    if id <= Last(d) { SettleGrows(SettleAt(st, d, id), d, id + 1); }
  }

  lemma {:induction false} ConfirmGrows(g: Ledger, d: Disposition, id: int)
    requires 0 <= id <= MOD32
    ensures g.completions <= ConfirmFrom(g, d, id).completions
    decreases MOD32 - id
  {
    if id <= Last(d) { ConfirmGrows(Complete(g, id, ByConfirmation(d)), d, id + 1); }
  }

  // ---- the outgoing window -----------------------------------------------------------

  /** Transfers actually written. */
  function Transfers(sent: seq<Sent>): (n: nat) {
    if sent == [] then 0
    else Transfers(sent[..|sent| - 1]) + if sent[|sent| - 1].SentTransfer? then 1 else 0
  }

  lemma {:induction false} TransfersPlus(l: Life, f: Sent)
    ensures Transfers(Send(l, f).sent) == Transfers(l.sent) + if f.SentTransfer? then 1 else 0
  {
    var s := l.sent + [f];
    assert s[..|s| - 1] == l.sent;
  }

  predicate IsGrant(e: Event) {
    e.RxFlow? && e.flow.nextIncomingId.Some?
  }

  /**
   An edge is the first transfer number the peer has not granted, unbounded. A flow states it
   modulo 2^32, and a sane peer never moves it behind what was sent or a whole cycle beyond.
   */
  predicate EdgeAfter(st: Mux, e: Event, edge: int, after: int) {
    if IsGrant(e) then
      && Wrap(after) == Add32(e.flow.nextIncomingId.value, e.flow.incomingWindow)
      && Transfers(st.life.sent) <= after < Transfers(st.life.sent) + MOD32
    else after == edge
  }

  ghost predicate Edges(st: Mux, es: seq<Event>, edge: int, edges: seq<int>)
    decreases |es|
  {
    && |edges| == |es|
    && (es == [] || (EdgeAfter(st, es[0], edge, edges[0]) && Edges(Step(st, es[0]), es[1..], edges[0], edges[1..])))
  }

  /** The wrapped counters are the unbounded ones: number written, and room up to the peer's edge. */
  predicate WindowExact(st: Mux, edge: int) {
    && st.windows.nextOutgoingId == Wrap(Transfers(st.life.sent))
    && 0 <= edge - Transfers(st.life.sent) < MOD32
    && st.windows.remoteIncoming == edge - Transfers(st.life.sent)
  }

  lemma {:induction false} LifeTransfers(l: Life, r: Life, writes: bool)
    requires LifeStep(l, r, writes)
    ensures Transfers(r.sent) == Transfers(l.sent) + if writes then 1 else 0
  {
    hide Transfers;
    if writes {
      var t :| r == Send(l, SentTransfer(t));
      TransfersPlus(l, SentTransfer(t));
    } else if r.sent == l.sent {
    } else if f: Fault :| r == CloseWithError(l, f) {
      TransfersPlus(l.(closing := true), SentEnd(Some(f)));
    } else if f: Sent :| !f.SentTransfer? && r == Send(l, f) {
      TransfersPlus(l, f);
    } else {
      TransfersPlus(l, SentEnd(None));
    }
  }

  /** What a step does to the outgoing half of the windows. */
  lemma {:induction false} StepOutgoing(st: Mux, e: Event)
    requires Enabled(st, e)
    ensures var w, r := st.windows, Step(st, e).windows;
            && r.nextOutgoingId == (if Writes(e) then Add32(w.nextOutgoingId, 1) else w.nextOutgoingId)
            && r.remoteIncoming ==
               if Writes(e) then w.remoteIncoming - 1
               else if IsGrant(e) then
                 Add32(Sub32(e.flow.incomingWindow, w.nextOutgoingId), e.flow.nextIncomingId.value)
               else w.remoteIncoming
  {
    hide SettleFrom, ConfirmFrom, AwaitCompletion, Number, CloseWithError, EndNow, Send, Add32, Sub32;
    if e.RxDisposition? { SettleLife(st, e.disposition, e.disposition.first); }
  }

  lemma {:induction false} GrantArithmetic(after: int, written: nat, id: uint32, window: uint32)
    requires Wrap(after) == Add32(id, window) && 0 <= after - written < MOD32
    ensures Add32(Sub32(window, Wrap(written)), id) == after - written
  {
    hide Add32, Sub32, Wrap;
    NoWrap(window, id);
    WrapAdd(window, written);
    WrapAdd(window - written, id);
    WrapAdd(id, window);
    assert id + window == window + id;
    WrapAdd(after, written);
    WrapAdd(window + id, written);
    NoWrap(after - written, id);
    assert window - written + id == window + id - written;
  }

  lemma {:induction false} WindowStep(st: Mux, e: Event, edge: int, after: int)
    requires Enabled(st, e) && WindowExact(st, edge) && EdgeAfter(st, e, edge, after)
    ensures WindowExact(Step(st, e), after)
    ensures Writes(e) ==> Transfers(st.life.sent) < edge
  {
    hide Step, Transfers, Add32, Sub32, Wrap;
    StepLife(st, e);
    LifeTransfers(st.life, Step(st, e).life, Writes(e));
    StepOutgoing(st, e);
    var n := Transfers(st.life.sent);
    if Writes(e) {
      WrapOne(n);
    } else if IsGrant(e) {
      GrantArithmetic(after, n, e.flow.nextIncomingId.value, e.flow.incomingWindow);
    }
  }

  lemma {:induction false} WrapOne(n: int)
    ensures Wrap(n + 1) == Add32(Wrap(n), 1) && Wrap(n - 1) == Sub32(Wrap(n), 1)
  {
    WrapAdd(n, 1);
  }

  function LastEdge(edge: int, edges: seq<int>): (r: int) {
    if edges == [] then edge else edges[|edges| - 1]
  }

  /**
   Window safety over whole runs: with a peer whose edge never falls behind what was sent, the
   wrapped window is the exact distance to the edge, so no run writes past the peer's grant.
   */
  lemma {:induction false} WindowRun(st: Mux, es: seq<Event>, edge: int, edges: seq<int>)
    requires ValidRun(st, es) && WindowExact(st, edge) && Edges(st, es, edge, edges)
    ensures WindowExact(Run(st, es), LastEdge(edge, edges))
    decreases |es|
  {
    hide Step, WindowExact, EdgeAfter, Enabled;
    if es != [] {
      WindowStep(st, es[0], edge, edges[0]);
      WindowRun(Step(st, es[0]), es[1..], edges[0], edges[1..]);
    }
  }

  /** The peer's latest edge as the frames state it. */
  function LatestGrant(grant: uint32, es: seq<Event>): (r: uint32)
    decreases |es|
  {
    if es == [] then grant
    else
      LatestGrant(if IsGrant(es[0]) then Add32(es[0].flow.nextIncomingId.value, es[0].flow.incomingWindow) else grant,
                  es[1..])
  }

  lemma {:induction false} CancelOut(id: int, window: int, sent: int)
    requires 0 <= id < MOD32 && 0 <= window < MOD32 && 0 <= sent < MOD32
    ensures Add32(Add32(Sub32(window, sent), id), sent) == Add32(id, window)
  {
    hide Add32, Sub32, Wrap;
    NoWrap(id, window);
    NoWrap(sent, sent);
    WrapAdd(window, sent);
    WrapAdd(window - sent, id);
    WrapAdd(window - sent + id, sent);
    WrapAdd(id, window);
    assert window - sent + id + sent == id + window;
  }

  lemma {:induction false} MoveOne(window: uint32, sent: uint32)
    requires window > 0
    ensures Add32(window - 1, Add32(sent, 1)) == Add32(window, sent)
  {
    hide Add32, Sub32, Wrap;
    NoWrap(window, window - 1);
    NoWrap(sent, 1);
    WrapAdd(sent, 1);
    WrapAdd(window - 1, sent + 1);
    WrapAdd(window, sent);
  }

  lemma {:induction false} GrantStep(st: Mux, e: Event, grant: uint32)
    requires Enabled(st, e) && Add32(st.windows.remoteIncoming, st.windows.nextOutgoingId) == grant
    ensures var w := Step(st, e).windows;
            Add32(w.remoteIncoming, w.nextOutgoingId) ==
            if IsGrant(e) then Add32(e.flow.nextIncomingId.value, e.flow.incomingWindow) else grant
  {
    hide Step, Add32, Sub32, Wrap;
    StepOutgoing(st, e);
    if IsGrant(e) {
      CancelOut(e.flow.nextIncomingId.value, e.flow.incomingWindow, st.windows.nextOutgoingId);
    } else if Writes(e) {
      MoveOne(st.windows.remoteIncoming, st.windows.nextOutgoingId);
    }
  }

  /** Whatever the peer sends: window plus next id is the latest grant modulo 2^32. */
  lemma {:induction false} GrantRun(st: Mux, es: seq<Event>, grant: uint32)
    requires ValidRun(st, es) && Add32(st.windows.remoteIncoming, st.windows.nextOutgoingId) == grant
    ensures var w := Run(st, es).windows;
            Add32(w.remoteIncoming, w.nextOutgoingId) == LatestGrant(grant, es)
    decreases |es|
  {
    hide Step, Enabled, Add32;
    if es != [] {
      GrantStep(st, es[0], grant);
      var next := if IsGrant(es[0]) then Add32(es[0].flow.nextIncomingId.value, es[0].flow.incomingWindow) else grant;
      GrantRun(Step(st, es[0]), es[1..], next);
    }
  }

  // ---- the incoming window -----------------------------------------------------------

  /** The edge the frames written have granted the peer. */
  function Granted(grant: uint32, sent: seq<Sent>): (r: uint32) {
    if sent == [] then grant
    else
      var f := sent[|sent| - 1];
      if f.SentFlow? && f.flow.nextIncomingId.Some? then Add32(f.flow.nextIncomingId.value, f.flow.incomingWindow)
      else Granted(grant, sent[..|sent| - 1])
  }

  lemma {:induction false} GrantedPlus(grant: uint32, l: Life, f: Sent)
    ensures Granted(grant, Send(l, f).sent) ==
            if f.SentFlow? && f.flow.nextIncomingId.Some?
            then Add32(f.flow.nextIncomingId.value, f.flow.incomingWindow) else Granted(grant, l.sent)
  {
    var s := l.sent + [f];
    assert s[..|s| - 1] == l.sent;
  }

  /** What the peer may still send. */
  function Room(st: Mux, grant: uint32): (n: uint32) {
    Sub32(Granted(grant, st.life.sent), st.windows.nextIncomingId)
  }

  /** While not closing, less than half the window is used since the last flow sent for it. */
  predicate Open(st: Mux, grant: uint32) {
    !st.life.closing && !st.life.exited ==>
      && st.windows.needFlowCount < st.windows.incoming / 2
      && st.windows.incoming - st.windows.needFlowCount <= Room(st, grant) <= st.windows.incoming
  }

  /** The peer's flows state the number of transfers it has sent. */
  predicate Honest(st: Mux, e: Event) {
    IsGrant(e) ==> e.flow.nextOutgoingId == st.windows.nextIncomingId
  }

  ghost predicate AllHonest(st: Mux, es: seq<Event>)
    decreases |es|
  {
    es == [] || (Honest(st, es[0]) && AllHonest(Step(st, es[0]), es[1..]))
  }

  lemma {:induction false} RoomAfterFlow(w: Windows)
    ensures Sub32(Add32(w.nextIncomingId, w.incoming), w.nextIncomingId) == w.incoming
  {
    hide Add32, Sub32, Wrap;
    NoWrap(w.nextIncomingId, w.incoming);
    WrapAdd(w.nextIncomingId, w.incoming);
    WrapAdd(w.nextIncomingId + w.incoming, w.nextIncomingId);
  }

  lemma {:induction false} RoomAfterTransfer(granted: uint32, next: uint32)
    requires Sub32(granted, next) > 0
    ensures Sub32(granted, Add32(next, 1)) == Sub32(granted, next) - 1
  {
    hide Add32, Sub32, Wrap;
    NoWrap(granted, next);
    NoWrap(Sub32(granted, next), 1);
    WrapAdd(next, 1);
    WrapAdd(granted, next + 1);
    WrapAdd(granted as int - next, 1);
    WrapAdd(granted, next);
    assert granted as int - (next + 1) == granted as int - next - 1;
  }

  lemma {:induction false} OpenTransfer(st: Mux, t: Transfer, second: bool, grant: uint32)
    requires Enabled(st, RxTransfer(t, second)) && Open(st, grant) && st.windows.incoming >= 2
    ensures Open(OnTransfer(st, t, second), grant)
  {
    hide Granted, Sub32, CloseWithError;
    var r := OnTransfer(st, t, second);
    if !st.life.closing && t.handle in st.tables.links {
      var w := TransferReceived(st.windows);
      assert w.needFlowCount == st.windows.needFlowCount + 1;
      RoomAfterTransfer(Granted(grant, st.life.sent), st.windows.nextIncomingId);
      if w.needFlowCount >= w.incoming / 2 {
        GrantedPlus(grant, st.life, SentFlow(Stamped(w, PLAIN_FLOW)));
        RoomAfterFlow(w);
      }
    } else if !st.life.closing {
      StayClosing(st.life, UnknownTransfer);
    } else {
      StayClosing(st.life, UnknownTransfer);
    }
  }

  lemma {:induction false} StayClosing(l: Life, f: Fault)
    ensures CloseWithError(l, f).closing && EndNow(l, None).closing
  {
  }

  /** A flow frame written leaves the whole window open. */
  lemma {:induction false} OpenSend(st: Mux, f: Sent, grant: uint32)
    requires Open(st, grant)
    requires f.SentFlow? ==> f.flow.nextIncomingId == Some(st.windows.nextIncomingId)
                             && f.flow.incomingWindow == st.windows.incoming
    ensures Open(st.(life := Send(st.life, f)), grant)
  {
    hide Granted, Sub32;
    GrantedPlus(grant, st.life, f);
    RoomAfterFlow(st.windows);
  }

  lemma {:induction false} OpenSettle(st: Mux, d: Disposition, grant: uint32)
    requires Open(st, grant)
    ensures Open(SettleFrom(st, d, d.first), grant)
  {
    hide SettleFrom, Granted, Sub32, CloseWithError;
    SettleLife(st, d, d.first);
    StayClosing(st.life, UnknownDisposition);
  }

  lemma {:induction false} OpenFlow(st: Mux, f: Flow, grant: uint32)
    requires Open(st, grant) && Honest(st, RxFlow(f))
    ensures Open(OnFlow(st, f), grant)
  {
    hide Granted, Sub32, CloseWithError, Add32;
    StayClosing(st.life, NoNextIncomingId);
    StayClosing(st.life, UnknownFlow);
    if f.nextIncomingId.Some? && f.handle.None? && f.echo && !st.life.closing {
      var s := st.(windows := FlowReceived(st.windows, f));
      OpenSend(s, SentFlow(Stamped(s.windows, PLAIN_FLOW)), grant);
    }
  }

  lemma {:induction false} OpenStep(st: Mux, e: Event, grant: uint32)
    requires Enabled(st, e) && Honest(st, e) && Open(st, grant) && st.windows.incoming >= 2
    ensures Open(Step(st, e), grant) && Step(st, e).windows.incoming == st.windows.incoming
  {
    hide SettleFrom, ConfirmFrom, AwaitCompletion, Number, Granted, Sub32, Add32, OnTransfer, OnFlow, Send,
         CloseWithError;
    var l := st.life;
    StayClosing(l, MismatchedAttach);
    StayClosing(l, UnknownDetach);
    StayClosing(l, UnexpectedFrame);
    match e {
      case RxDisposition(d) => OpenSettle(st, d, grant); SettleLife(st, d, d.first);
      case RxFlow(f) => OpenFlow(st, f, grant); KeepIncoming(st, e);
      case RxTransfer(t, second) => OpenTransfer(st, t, second, grant); KeepIncoming(st, e);
      case TxTransfer(env, h, done, outcome) =>
        var f := SentTransfer(Numbered(env, IdFor(st.tables, env)));
        OpenSend(st, f, grant);
        SendSame(l, f);
      case TxDisposition(d) =>
        OpenSend(st, SentDisposition(d), grant);
      case TxFlow(f) => OpenSend(st, SentFlow(Stamped(st.windows, f)), grant);
      case TxOther => OpenSend(st, SentOther, grant);
      case RxEnd(error) => EndLeaves(l, error);
      case _ =>
    }
  }

  predicate SameLife(l: Life, r: Life) {
    r.closing == l.closing && r.exited == l.exited
  }

  lemma {:induction false} SendSame(l: Life, f: Sent)
    ensures SameLife(l, Send(l, f))
  {
  }

  lemma {:induction false} EndLeaves(l: Life, error: Value)
    ensures EndReceived(l, error).exited
  {
  }

  lemma {:induction false} KeepIncoming(st: Mux, e: Event)
    requires e.RxFlow? || e.RxTransfer?
    ensures Step(st, e).windows.incoming == st.windows.incoming
  {
    hide Send, CloseWithError, Add32, Sub32;
  }

  /**
   The peer is granted more in time: facing an honest peer, in every run the session that is not
   closing leaves the peer more than half of the window.
   */
  lemma {:induction false} PeerNeverStarves(st: Mux, es: seq<Event>, grant: uint32)
    requires ValidRun(st, es) && AllHonest(st, es) && Open(st, grant) && st.windows.incoming >= 2
    ensures var r := Run(st, es);
            && Open(r, grant)
            && (!r.life.closing && !r.life.exited ==> Room(r, grant) > st.windows.incoming / 2)
    decreases |es|
  {
    hide Step, Enabled, Honest, Granted, Sub32;
    if es != [] {
      OpenStep(st, es[0], grant);
      PeerNeverStarves(Step(st, es[0]), es[1..], grant);
    }
  }

  // ---- splitting and numbering -------------------------------------------------------

  /** The passes of the select that write a message's transfers one after the other. */
  function Passes(envs: seq<Delivery.Envelope>, inputHandle: uint32, done: nat): (es: seq<Event>) {
    if envs == [] then []
    else [TxTransfer(envs[0], inputHandle, done, Written)] + Passes(envs[1..], inputHandle, done)
  }

  function SentAll(ts: seq<Transfer>): (r: seq<Sent>) {
    if ts == [] then [] else [SentTransfer(ts[0])] + SentAll(ts[1..])
  }

  /** The session can take n more transfers of a message whose channel is done. */
  predicate Ready(st: Mux, n: nat, done: nat) {
    && !st.life.exited && !st.life.panicked && !st.ledger.panicked && !st.life.closing
    && st.windows.remoteIncoming >= n && st.windows.outgoing != 0 && done !in st.ledger.channels
  }

  lemma {:induction false} PassWrites(st: Mux, env: Delivery.Envelope, inputHandle: uint32, done: nat, n: nat)
    requires Ready(st, n + 1, done)
    ensures var e := TxTransfer(env, inputHandle, done, Written);
            var r := Step(st, e);
            && Enabled(st, e)
            && r.life == Send(st.life, SentTransfer(Numbered(env, IdFor(st.tables, env))))
            && (!env.completes ==> Ready(r, n, done) && r.ledger == st.ledger)
            && (env.completes ==>
                  r.ledger == AwaitCompletion(st.ledger, IdFor(st.tables, env), done, env.frame.settled))
            && r.tables == Number(st.tables, env, inputHandle) && r.windows == TransferWritten(st.windows)
  {
    hide AwaitCompletion, Number;
  }

  lemma {:induction false} NumberKeeps(t: Tables, env: Delivery.Envelope, inputHandle: uint32)
    requires env.needsId || env.frame.handle in t.outputIds
    ensures var r := Number(t, env, inputHandle);
            env.frame.handle in r.outputIds && r.outputIds[env.frame.handle] == IdFor(t, env)
  {
  }

  /**
   A split message written by the session: the frames are exactly the stamped pieces, all under
   one delivery id, and it is that id whose completion is then awaited.
   */
  lemma {:induction false} SendsStamped(st: Mux, m: Delivery.Outgoing, rest: bytes, n: nat, first: bool,
                                        inputHandle: uint32, done: nat, id: uint32)
    requires n > 0 && rest != []
    requires Ready(st, |Delivery.Split(m, rest, n, first)|, done)
    requires if first then id == st.tables.nextDeliveryId
             else m.handle in st.tables.outputIds && id == st.tables.outputIds[m.handle]
    ensures var envs := Delivery.Split(m, rest, n, first);
            var es := Passes(envs, inputHandle, done);
            && ValidRun(st, es)
            && Run(st, es).life.sent == st.life.sent + SentAll(Delivery.Stamp(envs, id))
            && Run(st, es).ledger == AwaitCompletion(st.ledger, id, done, m.settled)
    decreases |rest|
  {
    hide Step, Enabled, AwaitCompletion, Number, Run, ValidRun, Passes, SentAll, Delivery.Split, Delivery.Stamp;
    var env := Delivery.Piece(m, rest, n, first);
    var left := if |rest| > n then rest[n..] else [];
    FirstPass(m, rest, n, first, inputHandle, done, id);
    PassWrites(st, env, inputHandle, done, |Delivery.Split(m, left, n, false)|);
    NumberKeeps(st.tables, env, inputHandle);
    var e := TxTransfer(env, inputHandle, done, Written);
    var r := Step(st, e);
    var es := Passes(Delivery.Split(m, left, n, false), inputHandle, done);
    RunFirst(st, e, es);
    if left != [] {
      SendsStamped(r, m, left, n, false, inputHandle, done, id);
    } else {
      RunNothing(r);
    }
  }

  /** What else the passes change: one delivery id is used, and the window by the transfers written. */
  lemma {:induction false} SendsKeep(st: Mux, m: Delivery.Outgoing, rest: bytes, n: nat, first: bool,
                                     inputHandle: uint32, done: nat)
    requires n > 0 && rest != []
    requires Ready(st, |Delivery.Split(m, rest, n, first)|, done)
    ensures var envs := Delivery.Split(m, rest, n, first);
            var r := Run(st, Passes(envs, inputHandle, done));
            && r.life == st.life.(sent := r.life.sent)
            && r.tables.nextDeliveryId == Add32(st.tables.nextDeliveryId, if first then 1 else 0)
            && r.windows.remoteIncoming == st.windows.remoteIncoming - |envs| && r.windows.outgoing == st.windows.outgoing
    decreases |rest|
  {
    hide Step, Enabled, AwaitCompletion, Run, ValidRun, Passes, SentAll, Delivery.Split, Delivery.Stamp;
    var env := Delivery.Piece(m, rest, n, first);
    var left := if |rest| > n then rest[n..] else [];
    FirstPass(m, rest, n, first, inputHandle, done, 0);
    PassWrites(st, env, inputHandle, done, |Delivery.Split(m, left, n, false)|);
    var e := TxTransfer(env, inputHandle, done, Written);
    var r := Step(st, e);
    RunFirst(st, e, Passes(Delivery.Split(m, left, n, false), inputHandle, done));
    NoWrap(r.tables.nextDeliveryId, 0);
    if left != [] {
      SendsKeep(r, m, left, n, false, inputHandle, done);
    } else {
      RunNothing(r);
      Delivery.SplitNothing(m, n, false);
    }
  }

  lemma {:induction false} FirstPass(m: Delivery.Outgoing, rest: bytes, n: nat, first: bool, inputHandle: uint32, done: nat, id: uint32)
    requires n > 0 && rest != []
    ensures var left := if |rest| > n then rest[n..] else [];
            var envs, tail := Delivery.Split(m, rest, n, first), Delivery.Split(m, left, n, false);
            var env := Delivery.Piece(m, rest, n, first);
            && |envs| == |tail| + 1
            && Passes(envs, inputHandle, done) ==
               [TxTransfer(env, inputHandle, done, Written)] + Passes(tail, inputHandle, done)
            && SentAll(Delivery.Stamp(envs, id)) ==
               [SentTransfer(Numbered(env, id))] + SentAll(Delivery.Stamp(tail, id))
            && (left == [] ==> Passes(tail, inputHandle, done) == [] && SentAll(Delivery.Stamp(tail, id)) == [])
  {
    var left := if |rest| > n then rest[n..] else [];
    var envs, tail := Delivery.Split(m, rest, n, first), Delivery.Split(m, left, n, false);
    assert envs[1..] == tail;
    assert Delivery.Stamp(envs, id)[1..] == Delivery.Stamp(tail, id);
  }

  lemma {:induction false} RunFirst(st: Mux, e: Event, es: seq<Event>)
    ensures Run(st, [e] + es) == Run(Step(st, e), es)
    ensures ValidRun(st, [e] + es) <==> Enabled(st, e) && ValidRun(Step(st, e), es)
  {
    assert ([e] + es)[1..] == es;
  }

  lemma {:induction false} RunNothing(st: Mux)
    ensures Run(st, []) == st && ValidRun(st, [])
  {
  }

  // ---- routing -----------------------------------------------------------------------

  /** Every link in the table is known under the handle it is found by. */
  predicate OneHandle(t: Tables) {
    forall h | h in t.links :: t.links[h] in t.inputHandles && t.inputHandles[t.links[h]] == h
  }

  /** The peer attaches a link only while it is not attached. */
  predicate AttachesOnce(t: Tables, e: Event) {
    e.RxAttach? && e.link.Some? ==> forall h | h in t.links :: t.links[h] != e.link.value
  }

  ghost predicate AllAttachOnce(st: Mux, es: seq<Event>)
    decreases |es|
  {
    es == [] || (AttachesOnce(st.tables, es[0]) && AllAttachOnce(Step(st, es[0]), es[1..]))
  }

  /** The links the session knows change with attach and detach only. */
  lemma {:induction false} SettleTables(st: Mux, d: Disposition, id: int)
    requires 0 <= id <= MOD32
    ensures var t := SettleFrom(st, d, id).tables;
            t.links == st.tables.links && t.inputHandles == st.tables.inputHandles
    decreases MOD32 - id
  {
    hide Complete, CloseWithError;
    if id <= Last(d) { SettleTables(SettleAt(st, d, id), d, id + 1); }
  }

  lemma {:induction false} StepTables(st: Mux, e: Event)
    requires Enabled(st, e) && !e.RxAttach? && !e.RxDetach?
    ensures var t := Step(st, e).tables;
            t.links == st.tables.links && t.inputHandles == st.tables.inputHandles
  {
    hide SettleFrom, CloseWithError, ConfirmFrom, AwaitCompletion, EndNow, EndReceived, Send, IdFor, Numbered, Stamped,
      FlowReceived, TransferReceived, TransferWritten, Add32, Sub32, Finite;
    if e.RxDisposition? { SettleTables(st, e.disposition, e.disposition.first); }
  }

  /** A detach takes out exactly the handle it names, when links have one handle each. */
  lemma {:induction false} DetachExact(st: Mux, h: uint32)
    requires h in st.tables.links && st.tables.links[h] in st.tables.inputHandles
    ensures OnDetach(st, h).tables.links == st.tables.links - {h} <==> st.tables.inputHandles[st.tables.links[h]] == h
  {
    var l, t := st.tables.links[h], OnDetach(st, h).tables;
    if st.tables.inputHandles[l] != h { assert h in t.links && h !in st.tables.links - {h}; }
  }

  lemma {:induction false} RouteStep(st: Mux, e: Event, h: uint32)
    requires Enabled(st, e) && OneHandle(st.tables) && AttachesOnce(st.tables, e) && h in st.tables.links
    requires !(e.RxAttach? && e.handle == h) && !(e.RxDetach? && e.handle == h)
    ensures var t := Step(st, e).tables;
            OneHandle(t) && h in t.links && t.links[h] == st.tables.links[h]
  {
    hide Step;
    match e {
      case RxAttach(handle, link) => AttachTables(st, handle, link);
      case RxDetach(handle) => DetachTables(st, handle);
      case _ => StepTables(st, e);
    }
  }

  lemma {:induction false} AttachTables(st: Mux, handle: uint32, link: Option<Link>)
    ensures var t := Step(st, RxAttach(handle, link)).tables;
            if link.None? then t == st.tables
            else && t.links == st.tables.links[handle := link.value]
                 && t.inputHandles == st.tables.inputHandles[link.value := handle]
  {
  }

  lemma {:induction false} DetachTables(st: Mux, handle: uint32)
    requires OneHandle(st.tables)
    ensures var t := Step(st, RxDetach(handle)).tables;
            t.links == st.tables.links - {handle} && t.inputHandles == st.tables.inputHandles
  {
    if handle in st.tables.links { DetachExact(st, handle); } else { assert st.tables.links == st.tables.links - {handle}; }
  }

  /**
   Routing: from the attach of a link to its detach, whatever else happens, a transfer on its handle
   is passed to that link.
   */
  lemma {:induction false} RoutedWhileAttached(st: Mux, es: seq<Event>, h: uint32, t: Transfer, second: bool)
    requires ValidRun(st, es) && OneHandle(st.tables) && AllAttachOnce(st, es) && h in st.tables.links
    requires forall k | 0 <= k < |es| ::
               !(es[k].RxAttach? && es[k].handle == h) && !(es[k].RxDetach? && es[k].handle == h)
    requires t.handle == h
    ensures var r := Run(st, es);
            && OneHandle(r.tables) && h in r.tables.links && r.tables.links[h] == st.tables.links[h]
            && Step(r, RxTransfer(t, second)).forwarded
               == r.forwarded + [Forward(st.tables.links[h], RxTransfer(t, second))]
    decreases |es|
  {
    hide Enabled, OneHandle, AttachesOnce;
    if es != [] {
      hide Step;
      RouteStep(st, es[0], h);
      RoutedWhileAttached(Step(st, es[0]), es[1..], h, t, second);
    } else {
      RunNothing(st);
    }
  }

  // ---- from the beginning ------------------------------------------------------------

  lemma {:induction false} StartHolds(begin: Begin)
    ensures var st := Start(begin);
            && EndOnce(st.life) && Sound(st.ledger) && WindowExact(st, begin.incomingWindow)
            && Add32(st.windows.remoteIncoming, st.windows.nextOutgoingId) == begin.incomingWindow
            && Open(st, Add32(begin.nextOutgoingId, DEFAULT_WINDOW)) && st.windows.incoming == DEFAULT_WINDOW
  {
    RoomAfterFlow(Start(begin).windows);
  }

  /** All of it, for any run of a session whose peer answered with the given begin. */
  lemma {:induction false} EveryRun(begin: Begin, es: seq<Event>, edges: seq<int>)
    requires ValidRun(Start(begin), es)
    ensures var r := Run(Start(begin), es);
            && EndOnce(r.life) && Sound(r.ledger)
            && Add32(r.windows.remoteIncoming, r.windows.nextOutgoingId) == LatestGrant(begin.incomingWindow, es)
            && (Edges(Start(begin), es, begin.incomingWindow, edges) ==>
                  WindowExact(r, LastEdge(begin.incomingWindow, edges)))
            && (AllHonest(Start(begin), es) && !r.life.closing && !r.life.exited ==>
                  Room(r, Add32(begin.nextOutgoingId, DEFAULT_WINDOW)) > DEFAULT_WINDOW / 2)
  {
    hide EndOnce, Sound, WindowExact, Open, Run, ValidRun, Edges, AllHonest, LatestGrant, Room, Add32;
    var st := Start(begin);
    StartHolds(begin);
    EndOnceRun(st, es);
    SoundRun(st, es);
    GrantRun(st, es, begin.incomingWindow);
    if Edges(st, es, begin.incomingWindow, edges) { WindowRun(st, es, begin.incomingWindow, edges); }
    if AllHonest(st, es) { PeerNeverStarves(st, es, Add32(begin.nextOutgoingId, DEFAULT_WINDOW)); }
  }
}
