/** Commits fenced by the game's version (packages/db/src/repository.ts,
    apps/server/src/game/coordinator.ts). */
module GameStore {
  import opened Wrappers
  import opened GameState
  import opened Runs

  /** The stored game: its row's version, and the state its rows hold. */
  datatype Stored = Stored(version: nat, state: GameState)

  /** The columns of the game row, and the rows of its players: the engine's
      state is read as one and then the other. */
  datatype GameRow = GameRow(version: nat, status: GameStatus, day: int, phase: Option<Phase>, settings: Settings,
                             nightsWithoutElimination: nat, winner: Option<VictoryResult>)

  datatype PlayerRows = PlayerRows(roster: seq<UserId>, players: map<UserId, Player>)

  function RowOf(d: Stored): GameRow {
    var s := d.state;
    GameRow(d.version, s.status, s.day, s.phase, s.settings, s.nightsWithoutElimination, s.winner)
  }

  function PlayersOf(d: Stored): PlayerRows { PlayerRows(d.state.roster, d.state.players) }

  function Assembled(row: GameRow, rows: PlayerRows): GameState {
    GameState(row.status, row.day, row.phase, rows.roster, rows.players, row.settings, row.nightsWithoutElimination, row.winner)
  }

  // ---- What is committed ----

  /** A transition of the engine, or one seat taken or given up. */
  datatype Change = Transit(transition: Transition) | Seat(user: UserId, player: Player) | Unseat(user: UserId)

  function Changed(s: GameState, change: Change): GameState {
    match change
    case Transit(tr) => After(s, tr)
    case Seat(u, p) => s.(roster := s.roster + [u], players := s.players[u := p])
    case Unseat(u) => s.(roster := Victory.Without(s.roster, u), players := s.players - {u})
  }

  /** The update applies only to the version it was computed from, and moves it on. */
  function Committed(d: Stored, expected: nat, change: Change): (Stored, bool) {
    if d.version != expected then (d, false) else (Stored(expected + 1, Changed(d.state, change)), true)
  }

  class Repository {
    var version: nat
    var state: GameState

    function View(): Stored
      reads this
    {
      Stored(version, state)
    }

    constructor (state: GameState)
      ensures View() == Stored(0, state)
    {
      version, this.state := 0, state;
    }

    method CommitTransition(expectedVersion: nat, transition: Transition) returns (ok: bool)
      modifies this
      ensures (View(), ok) == Committed(old(View()), expectedVersion, Transit(transition))
    {
      if version != expectedVersion { return false; }
      version := expectedVersion + 1;
      state := ApplyPatches(ApplyGamePatch(state, transition.game), transition.players);
      return true;
    }

    method CommitMembership(expectedVersion: nat, mutation: Change) returns (ok: bool)
      requires !mutation.Transit?
      modifies this
      ensures (View(), ok) == Committed(old(View()), expectedVersion, mutation)
    {
      if version != expectedVersion { return false; }
      version := expectedVersion + 1;
      match mutation {
        case Seat(u, p) => state := state.(roster := state.roster + [u], players := state.players[u := p]);
        case Unseat(u) => state := state.(roster := Victory.Without(state.roster, u), players := state.players - {u});
      }
      return true;
    }
  }

  // ---- Interleaved workers ----

  /** A request under way: what it has read so far. */
  datatype Worker = Started | HasRow(row: GameRow) | HasState(row: GameRow, rows: PlayerRows)

  datatype System = System(stored: Stored, workers: seq<Worker>)

  /** Requests read the row, then the players, then commit what the engine makes
      of the two together; any other request may act in between. */
  datatype Action = Begin | ReadRow(worker: nat) | ReadPlayers(worker: nat) | Commit(worker: nat, change: Change)

  /** The change is what some step of the engine makes of the state as read. */
  ghost predicate Resolves(s: GameState, change: Change) {
    exists step :: Enabled(s, step) && Changed(s, change) == Take(s, step)
  }

  ghost predicate Can(sys: System, action: Action) {
    match action
    case Begin => true
    case ReadRow(w) => w < |sys.workers| && sys.workers[w].Started?
    case ReadPlayers(w) => w < |sys.workers| && sys.workers[w].HasRow?
    case Commit(w, change) =>
      w < |sys.workers| && sys.workers[w].HasState? && Resolves(Assembled(sys.workers[w].row, sys.workers[w].rows), change)
  }

  /** After a commit, stale or not, the request starts over or is done. */
  ghost function Do(sys: System, action: Action): System
    requires Can(sys, action)
  {
    match action
    case Begin => sys.(workers := sys.workers + [Started])
    case ReadRow(w) => sys.(workers := sys.workers[w := HasRow(RowOf(sys.stored))])
    case ReadPlayers(w) => sys.(workers := sys.workers[w := HasState(sys.workers[w].row, PlayersOf(sys.stored))])
    case Commit(w, change) =>
      System(Committed(sys.stored, sys.workers[w].row.version, change).0, sys.workers[w := Started])
  }

  ghost predicate History(sys: System, actions: seq<Action>, end: System)
    decreases |actions|
  {
    if actions == [] then sys == end else Can(sys, actions[0]) && History(Do(sys, actions[0]), actions[1..], end)
  }

  /** Whoever read the version that is stored has read the state that is stored. */
  ghost predicate ReadsCurrent(d: Stored, w: Worker) {
    match w
    case Started => true
    case HasRow(row) => row.version <= d.version && (row.version == d.version ==> row == RowOf(d))
    case HasState(row, rows) =>
      row.version <= d.version && (row.version == d.version ==> row == RowOf(d) && rows == PlayersOf(d))
  }

  ghost predicate Inv(sys: System) { forall w :: 0 <= w < |sys.workers| ==> ReadsCurrent(sys.stored, sys.workers[w]) }

  lemma ActionKeepsInv(sys: System, action: Action)
    requires Inv(sys) && Can(sys, action)
    ensures Inv(Do(sys, action))
  {
    hide Resolves, Changed;
  }

  /** A commit that goes through was computed from exactly the state it is
      applied to, though it read that state in two steps: it is one step of the
      engine from what is stored. */
  lemma CommitAppliesWhereItRead(sys: System, w: nat, change: Change)
    requires Inv(sys) && Can(sys, Commit(w, change))
    ensures var (after, ok) := Committed(sys.stored, sys.workers[w].row.version, change);
      if ok then
        && Assembled(sys.workers[w].row, sys.workers[w].rows) == sys.stored.state
        && exists step :: Enabled(sys.stored.state, step) && after.state == Take(sys.stored.state, step)
      else after == sys.stored
  {
    hide Enabled, Take, Changed;
    assert ReadsCurrent(sys.stored, sys.workers[w]);
  }

  lemma {:induction false} RunSnoc(s: GameState, steps: seq<Step>, t: GameState, step: Step)
    requires Run(s, steps, t) && Enabled(t, step)
    ensures Run(s, steps + [step], Take(t, step))
    decreases |steps|
  {
    hide Enabled, Take;
    var more := steps + [step];
    if steps == [] {
      assert more == [step] && more[1..] == [];
    } else {
      assert more[1..] == steps[1..] + [step];
      RunSnoc(Take(s, steps[0]), steps[1..], t, step);
    }
  }

  lemma {:induction false} StoredFollowsTheEngine(start: GameState, sys: System, actions: seq<Action>, end: System, steps: seq<Step>)
    returns (all: seq<Step>)
    requires Inv(sys) && History(sys, actions, end) && Run(start, steps, sys.stored.state)
    ensures Run(start, all, end.stored.state) && Inv(end)
    decreases |actions|
  {
    hide Inv, Can, Enabled, Take, Committed, Run;
    if actions == [] {
      all := steps;
    } else {
      var next := Do(sys, actions[0]);
      ActionKeepsInv(sys, actions[0]);
      var more := OneAction(start, sys, actions[0], steps);
      all := StoredFollowsTheEngine(start, next, actions[1..], end, more);
    }
  }

  lemma OneAction(start: GameState, sys: System, action: Action, steps: seq<Step>) returns (more: seq<Step>)
    requires Inv(sys) && Can(sys, action) && Run(start, steps, sys.stored.state)
    ensures Run(start, more, Do(sys, action).stored.state)
  {
    hide Inv, Enabled, Take, Resolves, Changed, Run, Assembled;
    more := steps;
    if action.Commit? {
      CommitAppliesWhereItRead(sys, action.worker, action.change);
      var (after, ok) := Committed(sys.stored, sys.workers[action.worker].row.version, action.change);
      if ok {
        var step :| Enabled(sys.stored.state, step) && after.state == Take(sys.stored.state, step);
        RunSnoc(start, steps, sys.stored.state, step);
        more := steps + [step];
      }
    }
  }

  /** Under any interleaving of requests, what is stored is what some sequential
      run of the engine leads to, and so has every property of such runs. */
  lemma CommitsAreSerialisable(start: GameState, actions: seq<Action>, end: System)
    requires Init(start) && History(System(Stored(0, start), []), actions, end)
    ensures exists steps :: Run(start, steps, end.stored.state)
    ensures Runs.Inv(end.stored.state)
  {
    hide Init, Run, Take, Enabled, Runs.Inv;
    EmptyRun(start);
    var steps := StoredFollowsTheEngine(start, System(Stored(0, start), []), actions, end, []);
    InitHolds(start);
    RunKeepsInv(start, steps, end.stored.state);
  }

  lemma EmptyRun(start: GameState)
    ensures Run(start, [], start)
  {
  }

  /** A commit moves the stored version on by one when nobody has overtaken it since it
      read the row, and otherwise changes nothing: then somebody else's has gone through. */
  lemma OnlyTheOvertakenFail(sys: System, w: nat, change: Change)
    requires Inv(sys) && Can(sys, Commit(w, change))
    ensures var read, after := sys.workers[w].row.version, Do(sys, Commit(w, change)).stored;
            && read <= sys.stored.version
            && (read == sys.stored.version ==>
                  after.version == sys.stored.version + 1 && exists step :: Enabled(sys.stored.state, step) && after.state == Take(sys.stored.state, step))
            && (read < sys.stored.version ==> after == sys.stored)
  {
    hide Enabled, Take, Changed;
    CommitAppliesWhereItRead(sys, w, change);
  }

  /** A request that reads and commits with nothing in between goes through. */
  lemma TheUndisturbedGoThrough(sys: System, w: nat, change: Change)
    requires Inv(sys) && Can(sys, ReadRow(w))
    ensures Can(Do(sys, ReadRow(w)), ReadPlayers(w))
    ensures var read := Do(Do(sys, ReadRow(w)), ReadPlayers(w));
            && (Can(read, Commit(w, change)) <==> Resolves(sys.stored.state, change))
            && (Resolves(sys.stored.state, change) ==>
                  var after := Do(read, Commit(w, change)).stored;
                  after.version == sys.stored.version + 1 && exists step :: Enabled(sys.stored.state, step) && after.state == Take(sys.stored.state, step))
  {
    hide Enabled, Take, Changed, Inv, Resolves;
    var row := Do(sys, ReadRow(w));
    var read := Do(row, ReadPlayers(w));
    ActionKeepsInv(sys, ReadRow(w));
    ActionKeepsInv(row, ReadPlayers(w));
    if Resolves(sys.stored.state, change) { OnlyTheOvertakenFail(read, w, change); }
  }
}
