/** The queue of promises that serialises the work on one game, and the one that
    serialises posts to global chat (apps/server/src/game/locks.ts,
    apps/server/src/routes/chat.ts). */
module GameLock {
  import opened Wrappers

  /** Callers are numbered as they arrive. `previous` is what each one waits
      for, `tail` the promise the next one will wait for. */
  type Caller = nat

  datatype Queue = Queue(previous: seq<Option<Caller>>, tail: Option<Caller>, entered: set<Caller>, released: set<Caller>)

  const EMPTY: Queue := Queue([], None, {}, {})

  /** A queued promise resolves once everything it was chained to has, and its
      own caller has released it. */
  predicate Resolved(q: Queue, c: Caller)
    decreases c
  {
    && c < |q.previous| && c in q.released
    && (q.previous[c].None? || (q.previous[c].value < c && Resolved(q, q.previous[c].value)))
  }

  predicate MayEnter(q: Queue, c: Caller) {
    c < |q.previous| && c !in q.entered && (q.previous[c].None? || Resolved(q, q.previous[c].value))
  }

  predicate Inside(q: Queue, c: Caller) { c in q.entered && c !in q.released }

  // ---- The three segments of `run` ----

  function Arrived(q: Queue): Queue { q.(previous := q.previous + [q.tail], tail := Some(|q.previous|)) }

  function Entered(q: Queue, c: Caller): Queue { q.(entered := q.entered + {c}) }

  function Released(q: Queue, c: Caller): Queue {
    q.(released := q.released + {c}, tail := if q.tail == Some(c) then None else q.tail)
  }

  class GameLock {
    var previous: seq<Option<Caller>>
    var queue: Option<Caller>
    var entered: set<Caller>
    var released: set<Caller>

    function View(): Queue
      reads this
    {
      Queue(previous, queue, entered, released)
    }

    constructor ()
      ensures View() == EMPTY
    {
      previous, queue, entered, released := [], None, {}, {};
    }

    method Arrive() returns (c: Caller)
      modifies this
      ensures c == |old(previous)| && View() == Arrived(old(View()))
    {
      c := |previous|;
      previous := previous + [queue];
      queue := Some(c);
    }

    method Enter(c: Caller)
      requires MayEnter(View(), c)
      modifies this
      ensures View() == Entered(old(View()), c)
    {
      entered := entered + {c};
    }

    method Release(c: Caller)
      requires Inside(View(), c)
      modifies this
      ensures View() == Released(old(View()), c)
    {
      released := released + {c};
      if queue == Some(c) { queue := None; }
    }
  }

  // ---- Runs ----

  datatype Step = Arrive | Enter(caller: Caller) | Release(caller: Caller)

  predicate Enabled(q: Queue, step: Step) {
    match step
    case Arrive => true
    case Enter(c) => MayEnter(q, c)
    case Release(c) => Inside(q, c)
  }

  function Take(q: Queue, step: Step): Queue {
    match step
    case Arrive => Arrived(q)
    case Enter(c) => Entered(q, c)
    case Release(c) => Released(q, c)
  }

  ghost predicate Run(q: Queue, steps: seq<Step>, end: Queue)
    decreases |steps|
  {
    if steps == [] then q == end else Enabled(q, steps[0]) && Run(Take(q, steps[0]), steps[1..], end)
  }

  ghost predicate AllReleasedBelow(q: Queue, c: Caller) { forall d: Caller :: d < c ==> d in q.released }

  ghost predicate Inv(q: Queue) {
    && (forall c: Caller :: c in q.released ==> c in q.entered)
    && (forall c: Caller :: c in q.entered ==> c < |q.previous| && AllReleasedBelow(q, c))
    && (forall c: Caller :: c < |q.previous| ==>
         if q.previous[c].None? then AllReleasedBelow(q, c) else c > 0 && q.previous[c] == Some(c - 1))
    && (if q.tail.None? then AllReleasedBelow(q, |q.previous|) else q.tail.value + 1 == |q.previous|)
  }

  /** A chained promise has resolved exactly when everyone up to it is done. */
  lemma {:induction false} ResolvedMeansDone(q: Queue, c: Caller)
    requires Inv(q) && c < |q.previous|
    ensures Resolved(q, c) <==> AllReleasedBelow(q, c + 1)
    decreases c
  {
    hide AllReleasedBelow;
    BelowNext(q, c);
    if q.previous[c].Some? { ResolvedMeansDone(q, c - 1); }
  }

  lemma BelowNext(q: Queue, c: Caller)
    ensures AllReleasedBelow(q, c + 1) <==> AllReleasedBelow(q, c) && c in q.released
  {
  }

  lemma GateMeansDone(q: Queue, c: Caller)
    requires Inv(q) && c < |q.previous| && c !in q.entered
    ensures MayEnter(q, c) <==> AllReleasedBelow(q, c)
  {
    hide AllReleasedBelow;
    if q.previous[c].Some? { ResolvedMeansDone(q, c - 1); }
  }

  lemma ReleasedGrow(q: Queue, c: Caller, d: Caller)
    requires AllReleasedBelow(q, d)
    ensures AllReleasedBelow(Released(q, c), d)
  {
  }

  lemma StepKeepsInv(q: Queue, step: Step)
    requires Inv(q) && Enabled(q, step)
    ensures Inv(Take(q, step))
  {
    match step
    case Arrive =>
    case Enter(c) => GateMeansDone(q, c);
    case Release(c) =>
      var t := Released(q, c);
      forall d: Caller | AllReleasedBelow(q, d) ensures AllReleasedBelow(t, d) { ReleasedGrow(q, c, d); }
      BelowNext(t, c);
  }

  lemma {:induction false} RunKeepsInv(q: Queue, steps: seq<Step>, end: Queue)
    requires Inv(q) && Run(q, steps, end)
    ensures Inv(end)
    decreases |steps|
  {
    hide Inv, Take;
    if steps != [] {
      StepKeepsInv(q, steps[0]);
      RunKeepsInv(Take(q, steps[0]), steps[1..], end);
    }
  }

  /** At most one caller is inside, and callers enter in the order they came. */
  lemma OneAtATimeInOrder(steps: seq<Step>, q: Queue, c: Caller, d: Caller)
    requires Run(EMPTY, steps, q)
    ensures Inside(q, c) && Inside(q, d) ==> c == d
    ensures c < d && d in q.entered ==> c in q.released
  {
    RunKeepsInv(EMPTY, steps, q);
  }

  /** Whenever nobody is inside, the first one waiting may enter: no waiter is
      ever forgotten. */
  lemma NobodyIsForgotten(steps: seq<Step>, q: Queue, c: Caller)
    requires Run(EMPTY, steps, q) && c < |q.previous| && c !in q.entered
    requires forall e: Caller :: e < c ==> e in q.entered && !Inside(q, e)
    ensures MayEnter(q, c)
  {
    RunKeepsInv(EMPTY, steps, q);
    GateMeansDone(q, c);
    forall e: Caller | e < c ensures e in q.released { assert !Inside(q, e); }
  }

  /** The post queue waits only for the promise before, not for the chain: the
      gate opens at the same moments. */
  lemma WaitingForOneIsEnough(steps: seq<Step>, q: Queue, c: Caller)
    requires Run(EMPTY, steps, q) && c < |q.previous| && c !in q.entered
    ensures MayEnter(q, c) <==> q.previous[c].None? || q.previous[c].value in q.released
  {
    RunKeepsInv(EMPTY, steps, q);
    GateMeansDone(q, c);
    if c > 0 { BelowNext(q, c - 1); }
  }
}
