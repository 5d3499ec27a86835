/** The holder of a queue: two one-place channels that hand the queue to one goroutine at a time. */
module Holder {
  import opened Words

  /** The queue, by its items, in either channel or in a goroutine's hands. */
  datatype Places<T> = Places(empty: Option<seq<T>>, populated: Option<seq<T>>, held: Option<seq<T>>)

  datatype Event<T> = Acquire | Wait | Use(items: seq<T>) | Release

  /** A receive waits for the channel to hold something, a send for it to be free. */
  predicate Enabled<T>(p: Places<T>, e: Event<T>) {
    match e
    case Acquire => p.empty.Some? || p.populated.Some?
    case Wait => p.populated.Some?
    case Use(_) => p.held.Some?
    case Release => p.held.Some? && (if |p.held.value| == 0 then p.empty.None? else p.populated.None?)
  }

  function Step<T>(p: Places<T>, e: Event<T>): (r: Places<T>)
    requires Enabled(p, e)
  {
    match e
    case Acquire =>
      if p.empty.Some? then p.(empty := None, held := p.empty) else p.(populated := None, held := p.populated)
    case Wait => p.(populated := None, held := p.populated)
    case Use(items) => p.(held := Some(items))
    case Release =>
      if |p.held.value| == 0 then p.(empty := p.held, held := None) else p.(populated := p.held, held := None)
  }

  function Run<T>(p: Places<T>, es: seq<Event<T>>): (r: Places<T>)
    requires ValidRun(p, es)
    decreases |es|
  {
    if es == [] then p else Run(Step(p, es[0]), es[1..])
  }

  predicate ValidRun<T>(p: Places<T>, es: seq<Event<T>>)
    decreases |es|
  {
    es == [] || (Enabled(p, es[0]) && ValidRun(Step(p, es[0]), es[1..]))
  }

  function Full<T>(o: Option<seq<T>>): (n: nat) {
    if o.Some? then 1 else 0
  }

  /** The queue is in exactly one place; in populated only with items, in empty only without. */
  predicate OneToken<T>(p: Places<T>) {
    && Full(p.empty) + Full(p.populated) + Full(p.held) == 1
    && (p.empty.Some? ==> |p.empty.value| == 0) && (p.populated.Some? ==> |p.populated.value| > 0)
  }

  lemma {:induction false} OneTokenRun<T>(p: Places<T>, es: seq<Event<T>>)
    requires ValidRun(p, es) && OneToken(p)
    ensures OneToken(Run(p, es))
    decreases |es|
  {
    if es != [] { OneTokenRun(Step(p, es[0]), es[1..]); }
  }

  /** Hence Release never waits, Wait is offered exactly when the queue at rest has items, and Acquire gets it at rest. */
  lemma {:induction false} NeverBlocked<T>(p: Places<T>)
    requires OneToken(p)
    ensures p.held.Some? ==> Enabled(p, Release)
    ensures p.held.None? ==>
              && Enabled(p, Acquire)
              && (Enabled(p, Wait) <==> |Step(p, Acquire).held.value| > 0)
              && Step(p, Acquire).held.Some? && Step(Step(p, Acquire), Release) == p
  {
  }
}
