/** How the bots of one phase take their turns while their model calls, mentions
    and the game's commits interleave (apps/server/src/bots/manager.ts). */
module BotScheduler {
  import opened Wrappers
  import opened Sorting

  type Bot = nat
  type EventId = int

  /** The environment's bounds: at least one turn, at least one remembered mention. */
  datatype Config = Config(chatTurns: nat, phaseChatLimit: nat)

  predicate ConfigHolds(c: Config) { 1 <= c.chatTurns <= 12 && c.phaseChatLimit >= 1 }

  /** The record of one phase, as far as scheduling goes. */
  datatype Record = Record(turns: map<Bot, nat>, inFlight: set<Bot>, pending: map<Bot, seq<EventId>>)

  const FRESH: Record := Record(map[], {}, map[])

  function Used(r: Record, b: Bot): nat { if b in r.turns then r.turns[b] else 0 }

  /** Takes the turn: the count and the mark together, before any await. */
  function Reserved(r: Record, b: Bot): Record { r.(turns := r.turns[b := Used(r, b) + 1], inFlight := r.inFlight + {b}) }

  function Elements(events: seq<EventId>): set<EventId> { set e | e in events }

  function PendingOf(r: Record, b: Bot): seq<EventId> { if b in r.pending then r.pending[b] else [] }

  /** The last of these mentions by id, each once. */
  function Latest(c: Config, mentions: set<EventId>): seq<EventId> {
    var ordered := Sorted(mentions);
    if |ordered| <= c.phaseChatLimit then ordered else ordered[|ordered| - c.phaseChatLimit..]
  }

  function Remembered(c: Config, r: Record, b: Bot, mentions: seq<EventId>): Record {
    r.(pending := r.pending[b := Latest(c, Elements(PendingOf(r, b)) + Elements(mentions))])
  }

  // ---- The segments between awaits, each atomic ----

  /** What the loop of `react` finds out about one seat: the messages that
      mention it, whether any message reaches it, whether it could act or speak. */
  datatype Seat = Seat(bot: Bot, mentions: seq<EventId>, wakes: bool, hasWork: bool)

  datatype Outcome = Nothing | Starts(turn: nat) | Awaits

  function Consider(c: Config, r: Record, seat: Seat): (Record, Outcome) {
    var b := seat.bot;
    if b in r.inFlight then (if seat.mentions != [] then Remembered(c, r, b, seat.mentions) else r, Nothing)
    else if b in r.pending then (r, BeginPending(r, b))
    else if Used(r, b) > 0 && !(Used(r, b) < c.chatTurns && (seat.mentions != [] || seat.wakes)) then (r, Nothing)
    else if !seat.hasWork then (r, Nothing)
    else (Reserved(r, b), Starts(Used(r, b)))
  }

  /** `schedulePending` up to its await. */
  function BeginPending(r: Record, b: Bot): Outcome {
    if b !in r.pending || r.pending[b] == [] || b in r.inFlight then Nothing else Awaits
  }

  /** `schedulePending` from its await on. `open`: the window is still open for
      this seat and this record. */
  function ResumePending(c: Config, r: Record, b: Bot, open: bool, hasWork: bool): (Record, Outcome) {
    if b in r.inFlight || b !in r.pending || r.pending[b] == [] then (r, Nothing)
    else if !open || Used(r, b) >= c.chatTurns || !hasWork then (r.(pending := r.pending - {b}), Nothing)
    else (Reserved(r, b).(pending := r.pending - {b}), Starts(Used(r, b)))
  }

  /** The end of a decision: its mark goes, and what it missed is looked at. */
  function Finish(r: Record, b: Bot): (Record, Outcome) {
    var next := r.(inFlight := r.inFlight - {b});
    (next, BeginPending(next, b))
  }

  class PhaseRecord {
    const config: Config
    var turns: map<Bot, nat>
    var inFlight: set<Bot>
    var pendingMentions: map<Bot, seq<EventId>>

    function View(): Record
      reads this
    {
      Record(turns, inFlight, pendingMentions)
    }

    constructor (config: Config)
      ensures View() == FRESH && this.config == config
    {
      this.config := config;
      turns, inFlight, pendingMentions := map[], {}, map[];
    }

    method RememberPending(b: Bot, events: seq<EventId>)
      modifies this`pendingMentions
      ensures View() == Remembered(config, old(View()), b, events)
    {
      hide Latest;
      var existing := PendingOf(View(), b);
      var byId := Elements(existing);
      for i := 0 to |events|
        invariant byId == Elements(existing) + Elements(events[..i])
      {
        assert events[..i + 1] == events[..i] + [events[i]];
        byId := byId + {events[i]};
      }
      assert events[..|events|] == events;
      pendingMentions := pendingMentions[b := Latest(config, byId)];
    }

    method ConsiderSeat(seat: Seat) returns (outcome: Outcome)
      modifies this
      ensures (View(), outcome) == Consider(config, old(View()), seat)
    {
      var b := seat.bot;
      if b in inFlight {
        if |seat.mentions| > 0 { RememberPending(b, seat.mentions); }
        return Nothing;
      }
      if b in pendingMentions {
        outcome := SchedulePending(b);
        return;
      }
      var used := if b in turns then turns[b] else 0;
      if used > 0 && !(used < config.chatTurns && (|seat.mentions| > 0 || seat.wakes)) { return Nothing; }
      if !seat.hasWork { return Nothing; }
      turns := turns[b := used + 1];
      inFlight := inFlight + {b};
      return Starts(used);
    }

    method SchedulePending(b: Bot) returns (outcome: Outcome)
      ensures outcome == BeginPending(View(), b)
    {
      if b !in pendingMentions || |pendingMentions[b]| == 0 { return Nothing; }
      if b in inFlight { return Nothing; }
      return Awaits;
    }

    method SchedulePendingResumed(b: Bot, open: bool, hasWork: bool) returns (outcome: Outcome)
      modifies this
      ensures (View(), outcome) == ResumePending(config, old(View()), b, open, hasWork)
    {
      if b in inFlight { return Nothing; }
      if b !in pendingMentions || |pendingMentions[b]| == 0 { return Nothing; }
      var used := if b in turns then turns[b] else 0;
      if !open || used >= config.chatTurns || !hasWork {
        pendingMentions := pendingMentions - {b};
        return Nothing;
      }
      turns := turns[b := used + 1];
      inFlight := inFlight + {b};
      pendingMentions := pendingMentions - {b};
      return Starts(used);
    }

    method FinishDecision(b: Bot) returns (outcome: Outcome)
      modifies this
      ensures (View(), outcome) == Finish(old(View()), b)
    {
      inFlight := inFlight - {b};
      outcome := SchedulePending(b);
    }
  }

  // ---- Interleavings ----

  /** What is suspended somewhere: a decision at one of its awaits, or a
      `schedulePending` at its own. */
  datatype Task = Decision(bot: Bot, turn: nat) | Scheduling(bot: Bot)

  /** The record, the suspended tasks, and, for the record, every decision started. */
  datatype System = System(record: Record, tasks: multiset<Task>, started: seq<(Bot, nat)>)

  const IDLE: System := System(FRESH, multiset{}, [])

  /** One atomic segment. A commit may react at any time, any number of commits
      at once, and considers its seats one by one. */
  datatype Step =
    | React(seat: Seat)
    | Resume(bot: Bot, open: bool, hasWork: bool)
    | Done(bot: Bot, turn: nat)

  predicate Enabled(sys: System, step: Step) {
    match step
    case React(_) => true
    case Resume(b, _, _) => Scheduling(b) in sys.tasks
    case Done(b, turn) => Decision(b, turn) in sys.tasks
  }

  function Then(sys: System, b: Bot, next: (Record, Outcome)): System {
    match next.1
    case Nothing => sys.(record := next.0)
    case Awaits => sys.(record := next.0, tasks := sys.tasks + multiset{Scheduling(b)})
    case Starts(turn) =>
      sys.(record := next.0, tasks := sys.tasks + multiset{Decision(b, turn)}, started := sys.started + [(b, turn)])
  }

  function Take(c: Config, sys: System, step: Step): System
    requires Enabled(sys, step)
  {
    match step
    case React(seat) => Then(sys, seat.bot, Consider(c, sys.record, seat))
    case Resume(b, open, hasWork) =>
      Then(sys.(tasks := sys.tasks - multiset{Scheduling(b)}), b, ResumePending(c, sys.record, b, open, hasWork))
    case Done(b, turn) => Then(sys.(tasks := sys.tasks - multiset{Decision(b, turn)}), b, Finish(sys.record, b))
  }

  ghost predicate Run(c: Config, sys: System, steps: seq<Step>, end: System)
    decreases |steps|
  {
    if steps == [] then sys == end else Enabled(sys, steps[0]) && Run(c, Take(c, sys, steps[0]), steps[1..], end)
  }

  // ---- The invariant ----

  /** A bot has a decision suspended exactly while it is marked, and only one. */
  ghost predicate OneInFlight(sys: System) {
    && (forall b, t :: Decision(b, t) in sys.tasks ==> b in sys.record.inFlight && sys.tasks[Decision(b, t)] == 1)
    && (forall b, t, u :: Decision(b, t) in sys.tasks && Decision(b, u) in sys.tasks ==> t == u)
    && (forall b :: b in sys.record.inFlight ==> exists t :: Decision(b, t) in sys.tasks)
  }

  /** Turn numbers are given out in order, each once, and never beyond the budget. */
  ghost predicate TurnsCount(c: Config, sys: System) {
    && (forall b: Bot :: Used(sys.record, b) <= c.chatTurns)
    && (forall i :: 0 <= i < |sys.started| ==> sys.started[i].1 < Used(sys.record, sys.started[i].0))
    && (forall i, j :: 0 <= i < j < |sys.started| ==> sys.started[i] != sys.started[j])
  }

  ghost predicate Inv(c: Config, sys: System) { OneInFlight(sys) && TurnsCount(c, sys) }

  /** The one way a decision starts: for a bot that is not marked, on the turn
      it has not used, within its budget. */
  ghost predicate StartsWell(c: Config, r: Record, b: Bot, next: (Record, Outcome)) {
    match next.1
    case Starts(turn) =>
      && b !in r.inFlight && turn == Used(r, b) < c.chatTurns
      && next.0.inFlight == r.inFlight + {b} && next.0.turns == r.turns[b := turn + 1]
    case _ => next.0.turns == r.turns && next.0.inFlight == r.inFlight
  }

  lemma SegmentsStartWell(c: Config, r: Record, seat: Seat, b: Bot, open: bool, hasWork: bool)
    requires ConfigHolds(c)
    ensures StartsWell(c, r, seat.bot, Consider(c, r, seat))
    ensures StartsWell(c, r, b, ResumePending(c, r, b, open, hasWork))
  {
    hide Remembered;
    RememberedKeeps(c, r, seat.bot, seat.mentions);
  }

  lemma RememberedKeeps(c: Config, r: Record, b: Bot, mentions: seq<EventId>)
    ensures Remembered(c, r, b, mentions).turns == r.turns && Remembered(c, r, b, mentions).inFlight == r.inFlight
  {
  }

  lemma SameTurnsCount(c: Config, sys: System, t: System)
    requires TurnsCount(c, sys) && t.record.turns == sys.record.turns && t.started == sys.started
    ensures TurnsCount(c, t)
  {
    forall b: Bot ensures Used(t.record, b) == Used(sys.record, b) {}
  }

  lemma StartCounts(c: Config, sys: System, b: Bot, t: System)
    requires TurnsCount(c, sys) && Used(sys.record, b) < c.chatTurns
    requires t.record.turns == sys.record.turns[b := Used(sys.record, b) + 1] && t.started == sys.started + [(b, Used(sys.record, b))]
    ensures TurnsCount(c, t)
  {
    forall x: Bot ensures Used(t.record, x) == if x == b then Used(sys.record, b) + 1 else Used(sys.record, x) {}
    forall i, j | 0 <= i < j < |t.started| ensures t.started[i] != t.started[j] {
      assert j == |sys.started| ==> t.started[j] == (b, Used(sys.record, b));
    }
  }

  lemma ThenKeepsInv(c: Config, sys: System, b: Bot, next: (Record, Outcome))
    requires Inv(c, sys) && StartsWell(c, sys.record, b, next)
    ensures Inv(c, Then(sys, b, next))
  {
    hide OneInFlight, TurnsCount;
    var t := Then(sys, b, next);
    if next.1.Starts? {
      StartCounts(c, sys, b, t);
      StartKeepsOneInFlight(sys, b, next, t);
    } else {
      SameTurnsCount(c, sys, t);
      SameDecisions(sys, t);
    }
  }

  /** Suspending or waking a `schedulePending` is no decision. */
  lemma SameDecisions(sys: System, t: System)
    requires OneInFlight(sys) && t.record.inFlight == sys.record.inFlight
    requires forall x, y :: t.tasks[Decision(x, y)] == sys.tasks[Decision(x, y)]
    ensures OneInFlight(t)
  {
    assert forall x, y :: Decision(x, y) in t.tasks <==> Decision(x, y) in sys.tasks;
    forall x | x in t.record.inFlight ensures exists y :: Decision(x, y) in t.tasks {
      var y :| Decision(x, y) in sys.tasks;
      assert Decision(x, y) in t.tasks;
    }
  }

  lemma StartKeepsOneInFlight(sys: System, b: Bot, next: (Record, Outcome), t: System)
    requires OneInFlight(sys) && next.1.Starts? && t == Then(sys, b, next)
    requires b !in sys.record.inFlight && next.0.inFlight == sys.record.inFlight + {b}
    ensures OneInFlight(t)
  {
    var started := Decision(b, next.1.turn);
    assert forall x, y :: Decision(x, y) in t.tasks <==> Decision(x, y) in sys.tasks || Decision(x, y) == started;
    assert forall y :: Decision(b, y) !in sys.tasks;
    assert forall x, y :: x != b ==> t.tasks[Decision(x, y)] == sys.tasks[Decision(x, y)];
    assert t.tasks[started] == 1;
    forall x | x in t.record.inFlight ensures exists y :: Decision(x, y) in t.tasks {
      if x == b { assert started in t.tasks; }
      else { var y :| Decision(x, y) in sys.tasks; assert Decision(x, y) in t.tasks; }
    }
  }

  lemma DoneKeepsOneInFlight(sys: System, b: Bot, turn: nat, t: System)
    requires OneInFlight(sys) && Decision(b, turn) in sys.tasks
    requires t.record.inFlight == sys.record.inFlight - {b}
    requires forall x, y :: t.tasks[Decision(x, y)] == if x == b then 0 else sys.tasks[Decision(x, y)]
    ensures OneInFlight(t)
  {
    assert forall x, y :: Decision(x, y) in t.tasks <==> x != b && Decision(x, y) in sys.tasks;
    forall x | x in t.record.inFlight ensures exists y :: Decision(x, y) in t.tasks {
      var y :| Decision(x, y) in sys.tasks;
      assert Decision(x, y) in t.tasks;
    }
  }

  lemma DoneKeepsInv(c: Config, sys: System, b: Bot, turn: nat)
    requires Inv(c, sys) && Decision(b, turn) in sys.tasks
    ensures Inv(c, Take(c, sys, Done(b, turn)))
  {
    var t := Take(c, sys, Done(b, turn));
    forall y ensures t.tasks[Decision(b, y)] == 0 {
      assert y != turn ==> Decision(b, y) !in sys.tasks;
    }
    DoneKeepsOneInFlight(sys, b, turn, t);
    SameTurnsCount(c, sys, t);
  }

  lemma StepKeepsInv(c: Config, sys: System, step: Step)
    requires ConfigHolds(c) && Inv(c, sys) && Enabled(sys, step)
    ensures Inv(c, Take(c, sys, step))
  {
    hide Inv, StartsWell, Consider, ResumePending, Then;
    match step
    case React(seat) =>
      SegmentsStartWell(c, sys.record, seat, seat.bot, false, false);
      ThenKeepsInv(c, sys, seat.bot, Consider(c, sys.record, seat));
    case Resume(b, open, hasWork) =>
      SegmentsStartWell(c, sys.record, Seat(b, [], false, false), b, open, hasWork);
      var woken := sys.(tasks := sys.tasks - multiset{Scheduling(b)});
      WakingKeepsInv(c, sys, b, woken);
      ThenKeepsInv(c, woken, b, ResumePending(c, sys.record, b, open, hasWork));
    case Done(b, turn) => DoneKeepsInv(c, sys, b, turn);
  }

  lemma WakingKeepsInv(c: Config, sys: System, b: Bot, woken: System)
    requires Inv(c, sys) && woken == sys.(tasks := sys.tasks - multiset{Scheduling(b)})
    ensures Inv(c, woken)
  {
    hide OneInFlight, TurnsCount;
    SameTurnsCount(c, sys, woken);
    SameDecisions(sys, woken);
  }

  lemma {:induction false} RunKeepsInv(c: Config, sys: System, steps: seq<Step>, end: System)
    requires ConfigHolds(c) && Inv(c, sys) && Run(c, sys, steps, end)
    ensures Inv(c, end)
    decreases |steps|
  {
    hide Inv, Take;
    if steps != [] {
      StepKeepsInv(c, sys, steps[0]);
      RunKeepsInv(c, Take(c, sys, steps[0]), steps[1..], end);
    }
  }

  /** Within one phase's record, however reactions, decisions and their awaits
      interleave: a bot has at most one decision in flight, starts no more than
      its budget, and never uses a turn number, and so a decision id, twice. */
  lemma TurnsAreBounded(c: Config, steps: seq<Step>, end: System, b: Bot, t: nat, u: nat, i: nat, j: nat)
    requires ConfigHolds(c) && Run(c, IDLE, steps, end)
    ensures Decision(b, t) in end.tasks && Decision(b, u) in end.tasks ==> t == u && end.tasks[Decision(b, t)] == 1
    ensures i < |end.started| && end.started[i].0 == b ==> end.started[i].1 < c.chatTurns
    ensures i < j < |end.started| && end.started[i].0 == end.started[j].0 ==> end.started[i].1 != end.started[j].1
    ensures |set k | 0 <= k < |end.started| && end.started[k].0 == b| <= c.chatTurns
  {
    RunKeepsInv(c, IDLE, steps, end);
    StartsAreFew(c, end, b);
  }

  lemma {:induction false} DistinctBelow(numbers: set<int>, bound: nat)
    requires forall n :: n in numbers ==> 0 <= n < bound
    ensures |numbers| <= bound
  {
    if bound == 0 {
      HasElement(numbers);
    } else {
      DistinctBelow(numbers - {bound - 1}, bound - 1);
    }
  }

  lemma StartsAreFew(c: Config, end: System, b: Bot)
    requires TurnsCount(c, end)
    ensures |set k | 0 <= k < |end.started| && end.started[k].0 == b| <= c.chatTurns
  {
    var starts := set k | 0 <= k < |end.started| && end.started[k].0 == b;
    var turns := TurnsOf(end.started, starts);
    SameSize(end.started, starts);
    DistinctBelow(turns, c.chatTurns);
  }

  function TurnsOf(started: seq<(Bot, nat)>, starts: set<int>): set<int>
    requires forall k :: k in starts ==> 0 <= k < |started|
  {
    set k | k in starts :: started[k].1 as int
  }

  lemma {:induction false} SameSize(started: seq<(Bot, nat)>, starts: set<int>)
    requires forall k :: k in starts ==> 0 <= k < |started|
    requires forall k, l :: k in starts && l in starts && k != l ==> started[k].1 != started[l].1
    ensures |TurnsOf(started, starts)| == |starts|
    decreases |starts|
  {
    HasElement(starts);
    if starts != {} {
      var k: int :| k in starts;
      SameSize(started, starts - {k});
      assert TurnsOf(started, starts) == TurnsOf(started, starts - {k}) + {started[k].1 as int};
    }
  }

  // ---- Nobody is passed over ----

  /** A bot with something to do that is not busy, and that nobody has mentioned while it
      was, takes its first turn at once, and a later one when it is mentioned or woken
      and has turns left. */
  lemma TheyTakeTheirTurns(c: Config, sys: System, seat: Seat)
    requires seat.hasWork && seat.bot !in sys.record.inFlight && seat.bot !in sys.record.pending
    requires var used := Used(sys.record, seat.bot); used == 0 || (used < c.chatTurns && (seat.mentions != [] || seat.wakes))
    ensures var (t, b) := (Take(c, sys, React(seat)), seat.bot);
            && t.started == sys.started + [(b, Used(sys.record, b))]
            && Decision(b, Used(sys.record, b)) in t.tasks && b in t.record.inFlight && Used(t.record, b) == Used(sys.record, b) + 1
  {
  }

  /** So does one that is looking at what it missed, if the window is still open. */
  lemma TheMissedAreTakenUp(c: Config, sys: System, b: Bot)
    requires Scheduling(b) in sys.tasks && b !in sys.record.inFlight
    requires b in sys.record.pending && sys.record.pending[b] != [] && Used(sys.record, b) < c.chatTurns
    ensures var t := Take(c, sys, Resume(b, true, true));
            t.started == sys.started + [(b, Used(sys.record, b))] && b in t.record.inFlight && b !in t.record.pending
  {
  }

  /** Of the mentions a busy bot has missed the latest are kept, as many as the limit
      allows, in order. */
  lemma TheLatestAreKept(c: Config, r: Record, b: Bot, mentions: seq<EventId>, e: EventId)
    ensures var (before, kept) := (PendingOf(r, b), PendingOf(Remembered(c, r, b, mentions), b));
            && (forall i, j :: 0 <= i < j < |kept| ==> kept[i] < kept[j]) && |kept| <= c.phaseChatLimit
            && (e in kept ==> e in before || e in mentions)
            && ((e in before || e in mentions) && e !in kept ==>
                  |kept| == c.phaseChatLimit && forall i :: 0 <= i < |kept| ==> e < kept[i])
  {
    hide Sorted;
    LatestAre(c, Elements(PendingOf(r, b)) + Elements(mentions), e);
  }

  lemma LatestAre(c: Config, mentions: set<EventId>, e: EventId)
    ensures var kept := Latest(c, mentions);
            && (forall i, j :: 0 <= i < j < |kept| ==> kept[i] < kept[j]) && |kept| <= c.phaseChatLimit
            && (e in kept ==> e in mentions)
            && (e in mentions && e !in kept ==> |kept| == c.phaseChatLimit && forall i :: 0 <= i < |kept| ==> e < kept[i])
  {
    hide Sorted;
    var ordered := Sorted(mentions);
    var from := if |ordered| <= c.phaseChatLimit then 0 else |ordered| - c.phaseChatLimit;
    assert Latest(c, mentions) == ordered[from..];
    LastOfAscending(ordered, from, e);
  }

  lemma LastOfAscending(ordered: seq<EventId>, from: nat, e: EventId)
    requires Ascending(ordered) && from <= |ordered|
    ensures var kept := ordered[from..];
            && (forall i, j :: 0 <= i < j < |kept| ==> kept[i] < kept[j])
            && (e in kept ==> e in ordered)
            && (e in ordered && e !in kept ==> from > 0 && forall i :: 0 <= i < |kept| ==> e < kept[i])
  {
    assert ordered == ordered[..from] + ordered[from..];
    if e in ordered && e !in ordered[from..] {
      var k :| 0 <= k < |ordered[..from]| && ordered[..from][k] == e;
      assert ordered[k] == e;
    }
  }

  /** A bot with missed mentions is busy, or somebody is about to look at them. */
  ghost predicate Watched(sys: System) {
    forall b :: b in sys.record.pending ==> sys.record.pending[b] != [] && (b in sys.record.inFlight || Scheduling(b) in sys.tasks)
  }

  lemma StepKeepsWatch(c: Config, sys: System, step: Step)
    requires ConfigHolds(c) && Watched(sys) && Enabled(sys, step)
    ensures Watched(Take(c, sys, step))
  {
    hide Watched, Take;
    match step
    case React(seat) => ReactKeepsWatch(c, sys, seat);
    case Resume(b, open, hasWork) => ResumeKeepsWatch(c, sys, b, open, hasWork);
    case Done(b, turn) => DoneKeepsWatch(c, sys, b, turn);
  }

  /** A segment for one bot leaves the others as they are. */
  lemma OthersAreWatched(sys: System, b: Bot, t: System)
    requires Watched(sys)
    requires t.record.pending - {b} == sys.record.pending - {b} && t.record.inFlight - {b} == sys.record.inFlight - {b}
    requires forall x :: x != b && Scheduling(x) in sys.tasks ==> Scheduling(x) in t.tasks
    requires b in t.record.pending ==> t.record.pending[b] != [] && (b in t.record.inFlight || Scheduling(b) in t.tasks)
    ensures Watched(t)
  {
    forall x | x in t.record.pending ensures t.record.pending[x] != [] && (x in t.record.inFlight || Scheduling(x) in t.tasks) {
      if x != b {
        assert x in t.record.pending - {b};
        assert x in sys.record.pending - {b} && (t.record.pending - {b})[x] == (sys.record.pending - {b})[x];
        assert x in sys.record.inFlight ==> x in sys.record.inFlight - {b};
      }
    }
  }

  lemma ReactKeepsWatch(c: Config, sys: System, seat: Seat)
    requires ConfigHolds(c) && Watched(sys)
    ensures Watched(Take(c, sys, React(seat)))
  {
    hide Latest;
    SomethingIsRemembered(c, sys.record, seat.bot, seat.mentions);
    OthersAreWatched(sys, seat.bot, Take(c, sys, React(seat)));
  }

  lemma ResumeKeepsWatch(c: Config, sys: System, b: Bot, open: bool, hasWork: bool)
    requires Watched(sys) && Enabled(sys, Resume(b, open, hasWork))
    ensures Watched(Take(c, sys, Resume(b, open, hasWork)))
  {
    OthersAreWatched(sys, b, Take(c, sys, Resume(b, open, hasWork)));
  }

  lemma DoneKeepsWatch(c: Config, sys: System, b: Bot, turn: nat)
    requires Watched(sys) && Enabled(sys, Done(b, turn))
    ensures Watched(Take(c, sys, Done(b, turn)))
  {
    OthersAreWatched(sys, b, Take(c, sys, Done(b, turn)));
  }

  lemma SomethingIsRemembered(c: Config, r: Record, b: Bot, mentions: seq<EventId>)
    requires ConfigHolds(c)
    ensures mentions != [] ==> PendingOf(Remembered(c, r, b, mentions), b) != []
  {
    if mentions != [] {
      assert mentions[0] in mentions;
      TheLatestAreKept(c, r, b, mentions, mentions[0]);
    }
  }

  lemma {:induction false} RunKeepsWatch(c: Config, sys: System, steps: seq<Step>, end: System)
    requires ConfigHolds(c) && Watched(sys) && Run(c, sys, steps, end)
    ensures Watched(end)
    decreases |steps|
  {
    hide Watched, Take;
    if steps != [] {
      StepKeepsWatch(c, sys, steps[0]);
      RunKeepsWatch(c, Take(c, sys, steps[0]), steps[1..], end);
    }
  }

  /** Along any run: mentions missed by a bot are never forgotten; as long as they are
      remembered, the bot is busy and looks at them when it is done, or somebody is
      already about to. */
  lemma NoMentionIsForgotten(c: Config, steps: seq<Step>, end: System, b: Bot)
    requires ConfigHolds(c) && Run(c, IDLE, steps, end) && b in end.record.pending
    ensures end.record.pending[b] != []
    ensures b in end.record.inFlight || Scheduling(b) in end.tasks
    ensures forall turn :: Decision(b, turn) in end.tasks ==> Scheduling(b) in Take(c, end, Done(b, turn)).tasks
  {
    RunKeepsWatch(c, IDLE, steps, end);
  }
}
