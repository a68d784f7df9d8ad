/** Whole games: every step a game can take, and what all runs keep. */
module Runs {
  import opened Wrappers
  import opened Sorting
  import opened Roles
  import opened Slices
  import opened GameState
  import opened Victory
  import opened Composer
  import opened Commands
  import opened GameChat
  import opened NightIntents
  import opened NightStages
  import opened NightResolution
  import opened NightPipeline
  import opened NightOutcome
  import opened Phases
  import DayVote

  /** What can happen to a game: membership, the start, commands, a phase that
      is resolved, the owner's cancellation. */
  datatype Step =
    | Enter(user: UserId, displayName: Text, playing: bool)
    | Leave(user: UserId)
    | Defer
    | Start(deal: seq<RoleId>, belief: RoleId, now: int)
    | Act(user: UserId, command: Command, now: int)
    | Expire(now: int, rolls: Rolls)
    | Cancel

  predicate Waiting(s: GameState) { s.status.Lobby? || s.status.Scheduled? }

  ghost predicate Enabled(s: GameState, step: Step) {
    match step
    case Enter(u, _, playing) => u !in s.players && (Waiting(s) || (s.status == Running && !playing))
    case Leave(u) => u in s.players && Waiting(s)
    case Defer => s.status.Scheduled?
    case Start(deal, belief, _) =>
      Waiting(s) && |deal| == |LobbyOf(s)| && |deal| >= MIN_PLAYERS && IsValidComposition(deal, |deal|) && DrunkMayBelieve(belief)
    case Act(u, command, now) => Refusal(s, u, command, now).None?
    case Expire(_, _) => s.status == Running && s.phase.Some?
    case Cancel => true
  }

  function Newcomer(displayName: Text, playing: bool): Player {
    Player(displayName, false, if playing then InLobby else Spectator, None, None, None, Blank, FRESH, map[])
  }

  /** The state a step leads to. */
  ghost function Take(s: GameState, step: Step): GameState
    requires Enabled(s, step)
  {
    match step
    case Enter(u, displayName, playing) => s.(roster := s.roster + [u], players := s.players[u := Newcomer(displayName, playing)])
    case Leave(u) => s.(roster := Without(s.roster, u), players := s.players - {u})
    case Defer => s.(status := Lobby)
    case Start(deal, belief, now) => Started(s, deal, belief, now)
    case Act(u, command, now) => Acted(s, u, command, now)
    case Expire(now, rolls) => Expired(s, now, rolls)
    case Cancel => s.(status := Cancelled)
  }

  ghost function Acted(s: GameState, u: UserId, c: Command, now: int): GameState
    requires Refusal(s, u, c, now).None?
  {
    AcceptedInPhase(s, u, c, now);
    After(s, CommandTransition(s, u, c, now))
  }

  // ---- The invariant ----

  /** The day a phase id belongs to. */
  function DayOfPhase(id: int): int { (id - 1) / 3 + 1 }

  function KindOfPhase(id: int): PhaseType {
    if (id - 1) % 3 == 0 then Discussion else if (id - 1) % 3 == 1 then Voting else NightTime
  }

  /** Before the start nobody has a role or a vote. */
  ghost predicate Unstarted(s: GameState) {
    && s.phase.None? && s.nightsWithoutElimination == 0
    && forall u :: u in s.players ==>
         (s.players[u].status == InLobby || s.players[u].status == Spectator)
         && s.players[u].role.None? && s.players[u].originalRole.None? && s.players[u].phaseState.phaseId.None?
  }

  /** Phase id, kind and day move in lockstep, and the quiet nights are bounded. */
  predicate Lockstep(s: GameState) {
    && s.phase.Some? && s.phase.value.id >= 1
    && DayOfPhase(s.phase.value.id) == s.day && KindOfPhase(s.phase.value.id) == s.phase.value.kind
    && s.nightsWithoutElimination <= 4
  }

  /** Nothing is stored for a phase still to come. */
  ghost predicate RowsNotAhead(s: GameState) {
    forall u :: u in s.players && s.players[u].phaseState.phaseId.Some? ==>
      s.phase.Some? && s.players[u].phaseState.phaseId.value <= s.phase.value.id
  }

  /** Every vote that counts is a living player's for a living player. */
  ghost predicate VotesName(s: GameState) {
    forall u :: u in s.players && DayVote.VoteOf(s, u).Some? && DayVote.VoteOf(s, u).value.ForPlayer? ==>
      s.phase.value.kind == Voting && IsAlive(s, DayVote.VoteOf(s, u).value.target)
  }

  ghost predicate FactionsMatch(s: GameState) { forall u :: u in s.players ==> RoleMatches(s.players[u]) }

  /** Everybody in play was dealt a role. */
  ghost predicate Dealt(s: GameState) {
    forall u :: u in s.players && (s.players[u].status == Alive || s.players[u].status == Dead) ==> s.players[u].role.Some?
  }

  ghost predicate Inv(s: GameState) {
    && WellFormed(s) && FactionsMatch(s) && Dealt(s) && SingleHolders(s)
    && (Waiting(s) ==> Unstarted(s))
    && (s.status == Running ==> Lockstep(s) && ClockHolds(s) && RowsNotAhead(s) && VotesName(s))
  }

  // ---- Start ----

  lemma {:induction false} CountBoundsIndices(deal: seq<RoleId>, role: RoleId, i: nat, j: nat)
    requires i < j < |deal| && deal[i] == role == deal[j]
    ensures Count(deal, role) >= 2
    decreases |deal|
  {
    if i == 0 {
      CountedIsIn(deal[1..], role);
      assert deal[1..][j - 1] == role;
    } else {
      CountBoundsIndices(deal[1..], role, i - 1, j - 1);
    }
  }

  /** Who holds what on the first morning. */
  lemma StartedPlayer(s: GameState, deal: seq<RoleId>, belief: RoleId, now: int, u: UserId)
    requires WellFormed(s) && |deal| == |LobbyOf(s)| && u in s.players
    ensures u !in LobbyOf(s) ==> Started(s, deal, belief, now).players[u] == s.players[u]
    ensures forall i :: 0 <= i < |deal| && LobbyOf(s)[i] == u ==>
              Started(s, deal, belief, now).players[u] == Seated(s.players[u], deal[i], belief)
  {
    LobbyIsDistinct(s, |s.roster|);
    SeatPatchesSeat(LobbyOf(s), deal, belief, u, s.players[u]);
  }

  lemma SeatOf(s: GameState, deal: seq<RoleId>, belief: RoleId, now: int, u: UserId) returns (i: nat)
    requires WellFormed(s) && Unstarted(s) && |deal| == |LobbyOf(s)| && IsAlive(Started(s, deal, belief, now), u)
    ensures i < |deal| && LobbyOf(s)[i] == u && Started(s, deal, belief, now).players[u] == Seated(s.players[u], deal[i], belief)
  {
    hide WellFormed, Seated;
    StartedPlayer(s, deal, belief, now, u);
    assert u in LobbyOf(s);
    i :| 0 <= i < |LobbyOf(s)| && LobbyOf(s)[i] == u;
  }

  lemma StartDealsSingly(s: GameState, deal: seq<RoleId>, belief: RoleId, now: int)
    requires WellFormed(s) && Unstarted(s) && |deal| == |LobbyOf(s)| && IsValidComposition(deal, |deal|)
    ensures SingleHolders(Started(s, deal, belief, now))
  {
    hide WellFormed, Unstarted, Started;
    var t := Started(s, deal, belief, now);
    forall u, v, role | SingleCopy(role) && IsAlive(t, u) && IsAlive(t, v) && Holds(t, u, role) && Holds(t, v, role)
      ensures u == v
    {
      var i := SeatOf(s, deal, belief, now, u);
      var j := SeatOf(s, deal, belief, now, v);
      if i < j { CountBoundsIndices(deal, role, i, j); }
      if j < i { CountBoundsIndices(deal, role, j, i); }
    }
  }

  lemma StartKeepsInv(s: GameState, deal: seq<RoleId>, belief: RoleId, now: int)
    requires Inv(s) && Enabled(s, Start(deal, belief, now))
    ensures Inv(Started(s, deal, belief, now))
  {
    hide IsValidComposition, Started, SingleHolders, WellFormed;
    var t := Started(s, deal, belief, now);
    StartDealsSingly(s, deal, belief, now);
    StartedShape(s, deal, belief, now);
    KeysKeepWellFormed(s, t);
    forall u | u in s.players
      ensures RoleMatches(t.players[u]) && t.players[u].phaseState == s.players[u].phaseState
      ensures t.players[u].status == Alive || t.players[u].status == Dead ==> t.players[u].role.Some?
    {
      StartedSeat(s, deal, belief, now, u);
    }
    FloorIsEarlier(s.settings.discussionMs);
    NoVotesYet(s, t);
  }

  lemma StartedSeat(s: GameState, deal: seq<RoleId>, belief: RoleId, now: int, u: UserId)
    requires WellFormed(s) && Unstarted(s) && |deal| == |LobbyOf(s)| && u in s.players && u in Started(s, deal, belief, now).players
    ensures var q := Started(s, deal, belief, now).players[u];
      RoleMatches(q) && q.phaseState == s.players[u].phaseState && (q.status == Alive || q.status == Dead ==> q.role.Some?)
  {
    hide Started, WellFormed;
    StartedPlayer(s, deal, belief, now, u);
    if u in LobbyOf(s) { var i :| 0 <= i < |LobbyOf(s)| && LobbyOf(s)[i] == u; }
  }

  lemma NoVotesYet(s: GameState, t: GameState)
    requires Unstarted(s) && t.players.Keys == s.players.Keys
    requires forall u :: u in t.players ==> t.players[u].phaseState == s.players[u].phaseState
    ensures RowsNotAhead(t) && VotesName(t)
  {
    forall u | u in t.players ensures DayVote.VoteOf(t, u).None? {}
  }

  lemma StartedShape(s: GameState, deal: seq<RoleId>, belief: RoleId, now: int)
    requires |deal| == |LobbyOf(s)|
    ensures Started(s, deal, belief, now).players.Keys == s.players.Keys && Started(s, deal, belief, now).roster == s.roster
    ensures Started(s, deal, belief, now).status == Running && Started(s, deal, belief, now).day == 1
    ensures Started(s, deal, belief, now).phase == Some(Phase(1, Discussion, now, now + s.settings.discussionMs))
    ensures Started(s, deal, belief, now).settings == s.settings
    ensures Started(s, deal, belief, now).nightsWithoutElimination == s.nightsWithoutElimination
  {
    hide SeatPatches;
  }

  // ---- Membership ----

  lemma EnterKeepsInv(s: GameState, u: UserId, displayName: Text, playing: bool)
    requires Inv(s) && Enabled(s, Enter(u, displayName, playing))
    ensures Inv(Take(s, Enter(u, displayName, playing)))
  {
    var t := Take(s, Enter(u, displayName, playing));
    assert t.roster[|s.roster|] == u;
    forall v | v in s.players ensures exists i :: 0 <= i < |t.roster| && t.roster[i] == v {
      var i :| 0 <= i < |s.roster| && s.roster[i] == v;
      assert t.roster[i] == v;
    }
    EnterKeepsPlay(s, u, displayName, playing, t);
  }

  lemma EnterKeepsPlay(s: GameState, u: UserId, displayName: Text, playing: bool, t: GameState)
    requires Inv(s) && Enabled(s, Enter(u, displayName, playing)) && t == Take(s, Enter(u, displayName, playing))
    ensures FactionsMatch(t) && Dealt(t) && SingleHolders(t) && (Waiting(t) ==> Unstarted(t))
    ensures t.status == Running ==> Lockstep(t) && ClockHolds(t) && RowsNotAhead(t) && VotesName(t)
  {
    hide WellFormed, EveryoneReady, ClockHolds, SingleHolders, VotesName, RowsNotAhead;
    EnterKeepsVotes(s, u, t);
    if s.status == Running { NewcomersNeedNotBeReady(s, u, t); }
    EnterKeepsRows(s, u, t);
  }

  lemma EnterKeepsRows(s: GameState, u: UserId, t: GameState)
    requires t.phase == s.phase && u !in s.players && u in t.players && t.players[u].phaseState.phaseId.None?
    requires forall v :: v in t.players && v != u ==> v in s.players && t.players[v] == s.players[v]
    ensures RowsNotAhead(s) ==> RowsNotAhead(t)
  {
  }

  lemma EnterKeepsVotes(s: GameState, u: UserId, t: GameState)
    requires t.phase == s.phase && u !in s.players && u in t.players
    requires t.players[u].status != Alive
    requires forall v :: v in t.players && v != u ==> v in s.players && t.players[v] == s.players[v]
    requires forall v :: v in s.players ==> v in t.players
    ensures SingleHolders(s) ==> SingleHolders(t)
    ensures VotesName(s) ==> VotesName(t)
  {
    assert forall v :: v != u ==> (IsAlive(t, v) <==> IsAlive(s, v));
    assert forall v, role :: v != u ==> (Holds(t, v, role) <==> Holds(s, v, role));
    assert forall v :: v != u ==> DayVote.VoteOf(t, v) == DayVote.VoteOf(s, v);
  }

  lemma NewcomersNeedNotBeReady(s: GameState, u: UserId, t: GameState)
    requires ClockHolds(s) && t.phase == s.phase && t.settings == s.settings
    requires u !in s.players && u in t.players && t.players[u].status != Alive
    requires forall v :: v in t.players && v != u ==> v in s.players && t.players[v] == s.players[v]
    ensures ClockHolds(t)
  {
  }

  lemma LeaveKeepsInv(s: GameState, u: UserId)
    requires Inv(s) && Enabled(s, Leave(u))
    ensures Inv(Take(s, Leave(u)))
  {
    var t := Take(s, Leave(u));
    forall v | v in t.players ensures exists i :: 0 <= i < |t.roster| && t.roster[i] == v {
      var i :| 0 <= i < |s.roster| && s.roster[i] == v;
      assert v in s.roster && v in t.roster;
    }
    forall i | 0 <= i < |t.roster| ensures t.roster[i] in t.players {
      assert t.roster[i] in t.roster;
    }
  }

  // ---- Commands ----

  /** A command leaves statuses, roles and factions alone, and every row but
      the actor's. */
  ghost predicate SameCast(s: GameState, t: GameState, u: UserId) {
    && s.roster == t.roster && s.players.Keys == t.players.Keys && u in s.players
    && forall v :: v in s.players ==>
         && t.players[v].status == s.players[v].status && t.players[v].role == s.players[v].role
         && t.players[v].faction == s.players[v].faction
         && (v != u ==> t.players[v].phaseState == s.players[v].phaseState)
  }

  lemma ActKeepsCast(s: GameState, u: UserId, c: Command, now: int)
    requires Refusal(s, u, c, now).None?
    ensures SameCast(s, Acted(s, u, c, now), u)
  {
    hide Refusal, CommandTransition;
    AcceptedInPhase(s, u, c, now);
    var t := Acted(s, u, c, now);
    forall v | v in s.players
      ensures s.roster == t.roster && s.players.Keys == t.players.Keys
      ensures t.players[v].status == s.players[v].status && t.players[v].role == s.players[v].role
      ensures t.players[v].faction == s.players[v].faction
      ensures v != u ==> t.players[v].phaseState == s.players[v].phaseState
    {
      CommandPlayers(s, u, c, now, v, t);
    }
  }

  lemma CastKeepsRoles(s: GameState, t: GameState, u: UserId)
    requires SameCast(s, t, u) && WellFormed(s) && FactionsMatch(s) && Dealt(s) && SingleHolders(s)
    ensures WellFormed(t) && FactionsMatch(t) && Dealt(t) && SingleHolders(t)
  {
    assert forall v :: IsAlive(t, v) <==> IsAlive(s, v);
    assert forall v, role :: Holds(t, v, role) <==> Holds(s, v, role);
  }

  lemma ActKeepsVotes(s: GameState, u: UserId, c: Command, now: int, t: GameState)
    requires Refusal(s, u, c, now).None? && s.phase.Some? && t == Acted(s, u, c, now) && SameCast(s, t, u)
    requires t.phase.Some? && t.phase.value.id == s.phase.value.id && t.phase.value.kind == s.phase.value.kind
    requires RowsNotAhead(s) && VotesName(s)
    ensures RowsNotAhead(t) && VotesName(t)
  {
    hide Refusal, Acted;
    ActorsRow(s, u, c, now, t);
    forall v | v in t.players && DayVote.VoteOf(t, v).Some? && DayVote.VoteOf(t, v).value.ForPlayer?
      ensures t.phase.value.kind == Voting && IsAlive(t, DayVote.VoteOf(t, v).value.target)
    {
      if v != u || t.players[u].phaseState == s.players[u].phaseState || t.players[u].phaseState.vote == RowFor(s.players[u], s.phase.value.id).vote {
        assert DayVote.VoteOf(t, v) == DayVote.VoteOf(s, v);
      }
    }
  }

  lemma ActKeepsInv(s: GameState, u: UserId, c: Command, now: int)
    requires Inv(s) && Enabled(s, Act(u, c, now)) && s.status == Running
    ensures Inv(Acted(s, u, c, now))
  {
    hide Refusal, ClockHolds, WellFormed, CommandTransition, FactionsMatch, Dealt, SingleHolders, RowsNotAhead, VotesName, SameCast;
    AcceptedInPhase(s, u, c, now);
    var t := Acted(s, u, c, now);
    CommandKeepsTheClock(s, u, c, now, t);
    CommandPlayers(s, u, c, now, u, t);
    ActKeepsCast(s, u, c, now);
    CastKeepsRoles(s, t, u);
    ActKeepsVotes(s, u, c, now, t);
  }

  /** The actor's row after a command is for the current phase or as it was, and
      a new vote names a living player. */
  lemma ActorsRow(s: GameState, u: UserId, c: Command, now: int, t: GameState)
    requires Refusal(s, u, c, now).None? && u in s.players && s.phase.Some? && t == Acted(s, u, c, now)
    ensures u in t.players
    ensures t.players[u].phaseState == s.players[u].phaseState || t.players[u].phaseState.phaseId == Some(s.phase.value.id)
    ensures t.players[u].phaseState.vote == RowFor(s.players[u], s.phase.value.id).vote
            || t.players[u].phaseState == s.players[u].phaseState
            || t.players[u].phaseState.vote == Some(Abstain)
            || (s.phase.value.kind == Voting && t.players[u].phaseState.vote.Some? && t.players[u].phaseState.vote.value.ForPlayer?
                && IsAlive(s, t.players[u].phaseState.vote.value.target))
  {
    hide PayloadError, ValidMentions, EveryoneReady, DeadlineFor, Exclusive;
    var tr := CommandTransition(s, u, c, now);
    if tr.players != [] { OnePatch(u, s.players[u], tr.players[0]); assert tr.players == [tr.players[0]]; }
  }

  // ---- Phases ----

  /** A fresh phase: nothing stored yet counts for it. */
  lemma FreshPhase(s: GameState, t: GameState, kind: PhaseType, now: int)
    requires s.phase.Some? && RowsNotAhead(s) && t.settings == s.settings
    requires t.phase == Some(Next(s.phase.value, kind, now, s.settings))
    requires forall u :: u in t.players ==> u in s.players && t.players[u].phaseState == s.players[u].phaseState
    ensures RowsNotAhead(t) && VotesName(t) && ClockHolds(t)
  {
    FloorIsEarlier(PhaseDuration(kind, s.settings));
    forall u | u in t.players ensures DayVote.VoteOf(t, u).None? {}
  }

  lemma NextDay(id: int, day: int)
    requires id >= 1 && DayOfPhase(id) == day
    ensures DayOfPhase(id + 1) == if KindOfPhase(id) == NightTime then day + 1 else day
    ensures KindOfPhase(id) == Discussion ==> KindOfPhase(id + 1) == Voting
    ensures KindOfPhase(id) == Voting ==> KindOfPhase(id + 1) == NightTime
    ensures KindOfPhase(id) == NightTime ==> KindOfPhase(id + 1) == Discussion
  {
  }

  ghost predicate CastHolds(s: GameState) { WellFormed(s) && FactionsMatch(s) && Dealt(s) && SingleHolders(s) }

  /** Finishing off the losers leaves the cast as it was. */
  lemma FinishKeepsRoles(s: GameState, w: VictoryResult, t: GameState)
    requires CastHolds(s) && t.roster == s.roster && t.players == ApplyPatches(s, FinishOffLosers(s, w)).players
    ensures CastHolds(t)
  {
    hide WellFormed, FinishOffLosers;
    forall u | u in s.players
      ensures t.players[u] == s.players[u] || (t.players[u] == s.players[u].(status := Dead) && s.players[u].status == Alive)
    {
      FinishedPlayer(s, w, u);
    }
    assert forall u :: IsAlive(t, u) ==> IsAlive(s, u);
    assert forall u, role :: Holds(t, u, role) <==> Holds(s, u, role);
    KeysKeepWellFormed(s, t);
  }

  lemma KeysKeepWellFormed(s: GameState, t: GameState)
    requires WellFormed(s) && s.roster == t.roster && s.players.Keys == t.players.Keys
    ensures WellFormed(t)
  {
  }

  lemma FinishedPlayer(s: GameState, w: VictoryResult, u: UserId)
    requires u in s.players
    ensures var p := PatchedBy(u, s.players[u], FinishOffLosers(s, w));
      p == s.players[u] || (p == s.players[u].(status := Dead) && s.players[u].status == Alive)
  {
    if w.faction.Some? {
      var ids := SortedIds(Living(s) - w.players);
      KillAllPlayer(ids, u, s.players[u]);
    }
  }

  lemma {:induction false} KillAllPlayer(ids: seq<UserId>, u: UserId, p: Player)
    ensures PatchedBy(u, p, KillAll(ids)) == if u in ids then p.(status := Dead) else p
    decreases |ids|
  {
    if ids != [] {
      assert KillAll(ids)[1..] == KillAll(ids[1..]);
      KillAllPlayer(ids[1..], u, if u == ids[0] then p.(status := Dead) else p);
    }
  }

  // ---- The night ----

  lemma NightKeepsRoles(s: GameState, rolls: Rolls)
    requires CastHolds(s)
    ensures CastHolds(NightResolution.Projected(s, Outcome(s, rolls)))
  {
    hide WellFormed, SingleHolders, NightPlayer, Outcome;
    var n := Outcome(s, rolls);
    var t := NightResolution.Projected(s, n);
    NightKeepsSingleHolders(s, rolls);
    forall u | u in s.players
      ensures RoleMatches(t.players[u])
      ensures t.players[u].status == Alive || t.players[u].status == Dead ==> t.players[u].role.Some?
    {
      NightKeepsFactions(s, n, u, s.players[u]);
      NightPlayerStatus(s, n, u, s.players[u]);
      NightRole(s, n, u, s.players[u]);
      DeadWereAlive(s, rolls, u);
    }
    KeysKeepWellFormed(s, t);
  }

  lemma DeadWereAlive(s: GameState, rolls: Rolls, u: UserId)
    ensures u in Outcome(s, rolls).deaths ==> IsAlive(s, u)
  {
    hide Outcome, IsAlive;
    OutcomeKillsTheLiving(s, rolls);
  }

  lemma NightPlayerRow(s: GameState, n: Night, u: UserId, p: Player)
    ensures NightPlayer(s, n, u, p).phaseState == p.phaseState
  {
    hide NewLink, Acting, FindLiving, Committed;
    CommittedRow(n, u, p);
  }

  lemma CommittedRow(n: Night, u: UserId, p: Player)
    ensures Committed(n, u, p).phaseState == p.phaseState
  {
    hide TurnsOf;
  }

  lemma NightKeepsInv(s: GameState, rolls: Rolls, now: int, t: GameState)
    requires Inv(s) && s.status == Running && s.phase.Some? && s.phase.value.kind == NightTime
    requires t == Morning(s, Outcome(s, rolls), now)
    ensures Inv(t) && (t.status == Running ==> Fuel(t) < Fuel(s))
  {
    hide WellFormed, FactionsMatch, Dealt, SingleHolders, RowsNotAhead, VotesName, ClockHolds, Outcome, NightPlayer, CheckVictory, Fuel;
    NightKeepsRoles(s, rolls);
    var n := Outcome(s, rolls);
    var projected := NightResolution.Projected(s, n);
    if CheckVictory(projected).Some? {
      FinishKeepsRoles(projected, CheckVictory(projected).value, t);
    } else {
      NightSpendsFuel(s, rolls, now, t);
      NextDay(s.phase.value.id, s.day);
      forall u | u in s.players ensures t.players[u].phaseState == s.players[u].phaseState {
        NightPlayerRow(s, n, u, s.players[u]);
      }
      FreshPhase(s, t, Discussion, now);
      SameRoles(projected, t);
    }
  }

  lemma SameRoles(s: GameState, t: GameState)
    requires CastHolds(s) && s.roster == t.roster && s.players == t.players
    ensures CastHolds(t)
  {
    hide RoleMatches;
    assert forall u :: IsAlive(t, u) <==> IsAlive(s, u);
    assert forall u, role :: Holds(t, u, role) <==> Holds(s, u, role);
  }

  // ---- The vote ----

  lemma VoteKeepsRoles(s: GameState, selected: Option<UserId>)
    requires CastHolds(s) && (selected.Some? ==> IsAlive(s, selected.value))
    ensures CastHolds(DayVote.Projected(s, selected))
  {
    hide WellFormed, SingleHolders;
    var t := DayVote.Projected(s, selected);
    DayVote.VoteKeepsSingleHolders(s, selected);
    forall u | u in s.players
      ensures RoleMatches(t.players[u])
      ensures t.players[u].status == Alive || t.players[u].status == Dead ==> t.players[u].role.Some?
    {
      DayVote.VoteKeepsFactions(s, selected, u, s.players[u]);
      VotePlayerRole(s, selected, u);
    }
    KeysKeepWellFormed(s, t);
  }

  lemma VotePlayerRole(s: GameState, selected: Option<UserId>, u: UserId)
    requires u in s.players && (selected.Some? ==> IsAlive(s, selected.value))
    ensures var q := DayVote.VotePlayer(s, selected, u, s.players[u]);
      && (q.status == s.players[u].status || IsAlive(s, u)) && (s.players[u].role.Some? ==> q.role.Some?)
      && q.phaseState == s.players[u].phaseState
  {
    hide DayVote.Orphan, DayVote.DiesAtDusk;
    DayVote.DuskKillsTheLiving(s, selected);
  }

  lemma VeteranKeepsRoles(s: GameState, selected: Option<UserId>)
    requires CastHolds(s) && selected.Some? && IsAlive(s, selected.value) && Holds(s, selected.value, Veteran)
    ensures CastHolds(DayVote.Dusk(s, selected))
  {
    hide WellFormed, DayVote.WithPartner;
    var t := DayVote.Dusk(s, selected);
    DayVote.DuskKillsTheLiving(s, selected);
    assert forall u :: IsAlive(t, u) ==> IsAlive(s, u);
    assert forall u, role :: Holds(t, u, role) <==> Holds(s, u, role);
    KeysKeepWellFormed(s, t);
  }

  lemma VoteKeepsInv(s: GameState, selected: Option<UserId>, now: int, dusk: GameState, t: GameState)
    requires Inv(s) && s.status == Running && s.phase.Some? && s.phase.value.kind == Voting
    requires (selected.Some? ==> IsAlive(s, selected.value)) && dusk == DayVote.Dusk(s, selected)
    requires t == if dusk.status == Finished then dusk else dusk.(phase := Some(Next(s.phase.value, NightTime, now, s.settings)))
    ensures Inv(t) && (t.status == Running ==> Fuel(t) <= Fuel(s))
  {
    hide WellFormed, FactionsMatch, Dealt, SingleHolders, RowsNotAhead, VotesName, ClockHolds, CheckVictory, DayVote.VotePlayer, Fuel,
         DayVote.DiesAtDusk, DayVote.WithPartner;
    if selected.Some? && Holds(s, selected.value, Veteran) {
      VeteranKeepsRoles(s, selected);
    } else {
      VoteKeepsRoles(s, selected);
      var projected := DayVote.Projected(s, selected);
      if CheckVictory(projected).Some? {
        FinishKeepsRoles(projected, CheckVictory(projected).value, t);
      } else {
        DayVote.VoteAddsNoFuel(s, selected, dusk);
        SameFuel(dusk, t);
        NextDay(s.phase.value.id, s.day);
        forall u | u in s.players ensures t.players[u].phaseState == s.players[u].phaseState {
          VotePlayerRole(s, selected, u);
        }
        FreshPhase(s, t, NightTime, now);
        SameRoles(projected, t);
      }
    }
  }

  lemma SameFuel(s: GameState, t: GameState)
    requires s.players == t.players && s.nightsWithoutElimination == t.nightsWithoutElimination
    ensures Fuel(t) == Fuel(s)
  {
    assert Living(s) == Living(t);
  }

  lemma DiscussionKeepsInv(s: GameState, now: int, t: GameState)
    requires Inv(s) && s.status == Running && s.phase.Some? && s.phase.value.kind == Discussion
    requires t == s.(phase := Some(Next(s.phase.value, Voting, now, s.settings)))
    ensures Inv(t) && Fuel(t) == Fuel(s)
  {
    hide WellFormed, FactionsMatch, Dealt, SingleHolders, RowsNotAhead, VotesName, ClockHolds, Fuel;
    SameFuel(s, t);
    NextDay(s.phase.value.id, s.day);
    FreshPhase(s, t, Voting, now);
    SameRoles(s, t);
  }

  // ---- Runs ----

  /** A new game: nobody has started, and the seats are as they should be. */
  ghost predicate Init(s: GameState) { WellFormed(s) && Waiting(s) && Unstarted(s) }

  lemma InitHolds(s: GameState)
    requires Init(s)
    ensures Inv(s)
  {
  }

  ghost predicate Run(s: GameState, steps: seq<Step>, t: GameState)
    decreases |steps|
  {
    if steps == [] then s == t else Enabled(s, steps[0]) && Run(Take(s, steps[0]), steps[1..], t)
  }

  /** A command outside a running game is refused before the start, and leaves
      a finished or cancelled game's cast alone. */
  lemma ActOutsideAGame(s: GameState, u: UserId, c: Command, now: int)
    requires Inv(s) && Enabled(s, Act(u, c, now)) && s.status != Running
    ensures Inv(Acted(s, u, c, now)) && Acted(s, u, c, now).status == s.status && !Waiting(s)
  {
    hide Refusal, ClockHolds, WellFormed, CommandTransition, FactionsMatch, Dealt, SingleHolders, RowsNotAhead, VotesName, SameCast;
    AcceptedInPhase(s, u, c, now);
    var t := Acted(s, u, c, now);
    CommandPlayers(s, u, c, now, u, t);
    ActKeepsCast(s, u, c, now);
    CastKeepsRoles(s, t, u);
  }

  lemma ExpireKeepsInv(s: GameState, now: int, rolls: Rolls)
    requires Inv(s) && s.status == Running && s.phase.Some?
    ensures Inv(Expired(s, now, rolls))
    ensures Expired(s, now, rolls).status == Running ==>
              Fuel(Expired(s, now, rolls)) <= Fuel(s)
              && (s.phase.value.kind == NightTime ==> Fuel(Expired(s, now, rolls)) < Fuel(s))
  {
    hide Inv, Fuel, Outcome, Morning, DayVote.Dusk;
    var t := Expired(s, now, rolls);
    match s.phase.value.kind
    case Discussion => DiscussionKeepsInv(s, now, t);
    case Voting => VoteKeepsInv(s, DayVote.Selected(s), now, DayVote.Dusk(s, DayVote.Selected(s)), t);
    case NightTime => NightKeepsInv(s, rolls, now, t);
  }

  /** Every step keeps the invariant. */
  lemma StepKeepsInv(s: GameState, step: Step)
    requires Inv(s) && Enabled(s, step)
    ensures Inv(Take(s, step))
  {
    hide Expired, Acted, Started, Outcome;
    match step
    case Enter(u, displayName, playing) => EnterKeepsInv(s, u, displayName, playing);
    case Leave(u) => LeaveKeepsInv(s, u);
    case Defer => StatusKeepsInv(s, Lobby);
    case Start(deal, belief, now) => StartKeepsInv(s, deal, belief, now);
    case Act(u, c, now) => if s.status == Running { ActKeepsInv(s, u, c, now); } else { ActOutsideAGame(s, u, c, now); }
    case Expire(now, rolls) => ExpireKeepsInv(s, now, rolls);
    case Cancel => StatusKeepsInv(s, Cancelled);
  }

  lemma StatusKeepsInv(s: GameState, status: GameStatus)
    requires Inv(s) && (status == Cancelled || (status == Lobby && s.status.Scheduled?))
    ensures Inv(s.(status := status))
  {
    hide RoleMatches, ClockHolds;
    var t := s.(status := status);
    assert forall u :: IsAlive(t, u) <==> IsAlive(s, u);
    assert forall u, role :: Holds(t, u, role) <==> Holds(s, u, role);
  }

  lemma {:induction false} RunKeepsInv(s: GameState, steps: seq<Step>, t: GameState)
    requires Inv(s) && Run(s, steps, t)
    ensures Inv(t)
    decreases |steps|
  {
    hide Inv, Enabled, Take;
    if steps != [] {
      StepKeepsInv(s, steps[0]);
      RunKeepsInv(Take(s, steps[0]), steps[1..], t);
    }
  }

  /** Through all conversions, ascensions and lynches: factions follow roles, at
      most one living player really holds a single-copy role, and so an action
      other than the pack's attack has at most one intent that takes effect. */
  lemma RolesStaySingle(start: GameState, steps: seq<Step>, s: GameState, u: UserId, a: ActionId, x: Intent, y: Intent)
    requires Init(start) && Run(start, steps, s)
    ensures u in s.players && s.players[u].role.Some? ==> s.players[u].faction == Some(StartingFaction(s.players[u].role.value))
    ensures SingleHolders(s)
    ensures a != WolfAttack && x in FrozenIntents(s, a) && y in FrozenIntents(s, a) && !x.mimicked && !y.mimicked ==> x == y
  {
    hide Init, FrozenIntents, WellFormed;
    InitHolds(start);
    RunKeepsInv(start, steps, s);
    if a != WolfAttack && x in FrozenIntents(s, a) && y in FrozenIntents(s, a) && !x.mimicked && !y.mimicked {
      OneRealIntent(s, a, x, y);
    }
  }

  /** While a game runs, the phase id tells the day and the kind of phase, the
      deadline keeps between the floor and the full length and is early only
      when everyone alive is ready, and every vote that counts was cast in this
      phase for a living player. */
  lemma TheClockRuns(start: GameState, steps: seq<Step>, s: GameState, u: UserId)
    requires Init(start) && Run(start, steps, s) && s.status == Running
    ensures s.phase.Some? && DayOfPhase(s.phase.value.id) == s.day && KindOfPhase(s.phase.value.id) == s.phase.value.kind
    ensures var phase := s.phase.value;
      var duration := PhaseDuration(phase.kind, s.settings);
      && phase.startedAt + Floor(duration) <= phase.endsAt <= phase.startedAt + duration
      && (phase.endsAt < phase.startedAt + duration ==> EveryoneReady(s))
    ensures DayVote.VoteOf(s, u).Some? && DayVote.VoteOf(s, u).value.ForPlayer? ==>
              s.phase.value.kind == Voting && IsAlive(s, DayVote.VoteOf(s, u).value.target)
  {
    hide Init, WellFormed, FactionsMatch, Dealt, SingleHolders, EveryoneReady;
    InitHolds(start);
    RunKeepsInv(start, steps, s);
  }

  // ---- Every game ends ----

  /** Resolutions a running game has left in it, at most. */
  function Budget(s: GameState): int
    requires s.phase.Some?
  {
    3 * Fuel(s) + match s.phase.value.kind { case Discussion => 3 case Voting => 2 case NightTime => 1 }
  }

  function Resolutions(steps: seq<Step>): nat {
    if steps == [] then 0 else (if steps[0].Expire? then 1 else 0) + Resolutions(steps[1..])
  }

  lemma FuelIsPositive(s: GameState)
    requires Inv(s) && s.status == Running
    ensures Fuel(s) >= 0
  {
  }

  /** Nothing but a resolved phase changes who is alive or how many quiet nights
      have passed. */
  lemma OtherStepsKeepFuel(s: GameState, step: Step)
    requires Inv(s) && Enabled(s, step) && !step.Expire? && !Waiting(s)
    ensures Living(Take(s, step)) == Living(s) && Fuel(Take(s, step)) == Fuel(s)
    ensures Take(s, step).status == s.status || step.Cancel?
    ensures Take(s, step).status == Running ==>
              s.phase.Some? && Take(s, step).phase.Some? && Take(s, step).phase.value.kind == s.phase.value.kind
  {
    hide Refusal, CommandTransition, WellFormed, FactionsMatch, Dealt, SingleHolders, ClockHolds, RowsNotAhead, VotesName;
    if step.Act? {
      AcceptedInPhase(s, step.user, step.command, step.now);
      CommandPlayers(s, step.user, step.command, step.now, step.user, Take(s, step));
      ActKeepsCast(s, step.user, step.command, step.now);
    }
  }

  lemma LivingShrinksOnExpiry(s: GameState, now: int, rolls: Rolls)
    requires s.status == Running && s.phase.Some?
    ensures Living(Expired(s, now, rolls)) <= Living(s)
  {
    hide Outcome, Morning, DayVote.Dusk;
    match s.phase.value.kind
    case Discussion =>
    case Voting => VoteShrinks(s, DayVote.Selected(s));
    case NightTime =>
      ProjectedLiving(s, Outcome(s, rolls));
      MorningLiving(s, Outcome(s, rolls), now);
  }

  lemma VoteShrinks(s: GameState, selected: Option<UserId>)
    ensures Living(DayVote.Dusk(s, selected)) <= Living(s)
  {
    hide DayVote.WithPartner, CheckVictory, DayVote.Projected;
    var projected := DayVote.Projected(s, selected);
    DayVote.ProjectedLiving(s, selected);
    if CheckVictory(projected).Some? {
      var w := CheckVictory(projected).value;
      if w.faction.Some? { SurvivorsAfterFinish(projected, w); } else { NoPatchesNoChange(projected); }
    }
  }

  /** Once a game has started, nobody comes to life. */
  lemma LivingNeverGrows(s: GameState, step: Step)
    requires Inv(s) && Enabled(s, step) && !Waiting(s)
    ensures Living(Take(s, step)) <= Living(s) && !Waiting(Take(s, step))
  {
    hide Inv, Living, Expired, Fuel;
    if step.Expire? {
      LivingShrinksOnExpiry(s, step.now, step.rolls);
      ExpiredStatus(s, step.now, step.rolls);
    } else {
      OtherStepsKeepFuel(s, step);
    }
  }

  lemma ExpiredStatus(s: GameState, now: int, rolls: Rolls)
    requires s.status == Running && s.phase.Some?
    ensures Expired(s, now, rolls).status == Running || Expired(s, now, rolls).status == GameStatus.Finished
    ensures Expired(s, now, rolls).status == Running ==>
              && Expired(s, now, rolls).phase.Some?
              && Expired(s, now, rolls).phase.value.kind
                 == (match s.phase.value.kind { case Discussion => Voting case Voting => NightTime case NightTime => Discussion })
  {
    hide Outcome, CheckVictory, NightPlayer, DayVote.Selected, DayVote.WithPartner, DayVote.VotePlayer, DayVote.DiesAtDusk, FinishOffLosers;
  }

  lemma ExpirySpendsBudget(s: GameState, now: int, rolls: Rolls)
    requires Inv(s) && s.status == Running && s.phase.Some?
    ensures Expired(s, now, rolls).status == Running ==> Expired(s, now, rolls).phase.Some? && Budget(Expired(s, now, rolls)) < Budget(s)
  {
    hide Inv, Fuel, Expired;
    ExpireKeepsInv(s, now, rolls);
    ExpiredStatus(s, now, rolls);
  }

  /** A running game resolves at most `Budget` more phases, however it is
      played: fifteen for each of the living, three for each quiet night left,
      and what is left of the day. */
  lemma {:induction false} EveryGameEnds(s: GameState, steps: seq<Step>, t: GameState)
    requires Inv(s) && !Waiting(s) && Run(s, steps, t)
    ensures Living(t) <= Living(s)
    ensures s.status == Running ==> s.phase.Some? && Resolutions(steps) <= Budget(s)
    ensures s.status != Running ==> Resolutions(steps) == 0
    decreases |steps|
  {
    hide Inv, Enabled, Take, Living, Fuel;
    RunningHasAPhase(s);
    if steps == [] {
      if s.status == Running { FuelIsPositive(s); }
    } else {
      var step := steps[0];
      var next := Take(s, step);
      StepKeepsInv(s, step);
      LivingNeverGrows(s, step);
      EveryGameEnds(next, steps[1..], t);
      FirstStepBudget(s, step);
    }
  }

  lemma RunningHasAPhase(s: GameState)
    requires Inv(s)
    ensures s.status == Running ==> s.phase.Some?
  {
  }

  lemma FirstStepBudget(s: GameState, step: Step)
    requires Inv(s) && !Waiting(s) && Enabled(s, step)
    ensures step.Expire? ==> s.status == Running && s.phase.Some? && Budget(s) >= 1
    ensures step.Expire? && Take(s, step).status == Running ==> Take(s, step).phase.Some? && Budget(Take(s, step)) < Budget(s)
    ensures !step.Expire? && s.status != Running ==> Take(s, step).status != Running
    ensures !step.Expire? && s.status == Running && Take(s, step).status == Running ==>
              s.phase.Some? && Take(s, step).phase.Some? && Budget(Take(s, step)) == Budget(s)
    ensures s.status == Running ==> s.phase.Some? && Budget(s) >= 0
  {
    hide Inv, Fuel, Expired, Living;
    RunningHasAPhase(s);
    if s.status == Running { FuelIsPositive(s); }
    if step.Expire? { ExpirySpendsBudget(s, step.now, step.rolls); } else { OtherStepsKeepFuel(s, step); }
  }
}
