/** What the engine's transitions may write, as delivery relies on it: nobody's
    starting role is ever rewritten, and nobody has a role without one. */
module EngineCommits {
  import opened Wrappers
  import opened Sorting
  import opened Roles
  import opened GameState
  import opened Victory
  import opened Commands
  import opened NightStages
  import opened NightResolution
  import opened Phases
  import DayVote
  import NightIntents
  import NightOutcome
  import NightPipeline
  import NightContext
  import Runs
  import GameDelivery
  import GameHub

  predicate KnownOrigin(p: Player) { GameDelivery.KnownOrigin(p) }

  /** From `p` to `q` the starting role stays, once there is one, and there is
      one wherever there is a role. */
  predicate OriginKept(p: Player, q: Player) {
    (p.originalRole.Some? ==> q.originalRole == p.originalRole) && KnownOrigin(q)
  }

  ghost predicate OriginsKnown(s: GameState) { forall u :: u in s.players ==> KnownOrigin(s.players[u]) }

  ghost predicate OriginsKept(s: GameState, t: GameState) {
    forall u :: u in s.players && u in t.players ==> OriginKept(s.players[u], t.players[u])
  }

  // ---- Step by step ----

  lemma NightPlayerOrigin(s: GameState, n: Night, u: UserId, p: Player)
    requires p.role.Some? ==> p.originalRole.Some?
    requires u in n.conversions || n.ascension == Some(u) ==> p.role.Some?
    ensures OriginKept(p, NightPlayer(s, n, u, p))
  {
    hide NewLink, Acting, FindLiving, NightPipeline.TurnsOf;
    SameOrigin(s, n, u, p);
  }

  lemma SameOrigin(s: GameState, n: Night, u: UserId, p: Player)
    ensures NightPlayer(s, n, u, p).originalRole == p.originalRole
    ensures u !in n.conversions && n.ascension != Some(u) ==> NightPlayer(s, n, u, p).role == p.role
  {
    hide NewLink, Acting, FindLiving, Committed;
    NightOutcome.NightPlayerIsCommitted(s, n, u, p);
    CommittedOrigin(n, u, p);
  }

  lemma CommittedOrigin(n: Night, u: UserId, p: Player)
    ensures Committed(n, u, p).originalRole == p.originalRole
    ensures u !in n.conversions && n.ascension != Some(u) ==> Committed(n, u, p).role == p.role
  {
  }

  /** Conversions and the ascension happen to the living. */
  ghost predicate TurnsLive(f: Facts, n: Night) {
    (forall u :: u in n.conversions ==> IsAlive(f.s, u)) && (n.ascension.Some? ==> IsAlive(f.s, n.ascension.value))
  }

  lemma DuelTurnsLive(f: Facts, n: Night)
    requires n.ascension.None? && n.conversions == map[]
    ensures TurnsLive(f, DuelStage(f, n))
  {
    hide Acting, FindLiving, NightIntents.Location, IsAlive;
    if Acting(f.s, LoneWolfSearch).Some? { ActingIs(f.s, LoneWolfSearch); }
  }

  lemma StagesTurnTheLiving(f: Facts, n: Night)
    requires TurnsLive(f, n) && n.conversions == map[]
    ensures TurnsLive(f, HitStage(f, n)) && HitStage(f, n).conversions == map[]
    ensures TurnsLive(f, ShieldStage(f, n)) && ShieldStage(f, n).conversions == map[]
    ensures TurnsLive(f, SubstitutionStage(f, n)) && SubstitutionStage(f, n).conversions == map[]
  {
    hide Acting, FindLiving, AttackersOf, Ward, IsAlive;
  }

  lemma ConversionTurnsTheLiving(f: Facts, n: Night)
    requires TurnsLive(f, n) && NightPipeline.HitsAre(f, n) && n.conversions == map[]
    ensures TurnsLive(f, ConversionStage(f, n))
  {
    hide Acting, FateOf, IsAlive, IsPackMember;
  }

  lemma LastStagesTurnTheLiving(f: Facts, n: Night)
    requires TurnsLive(f, n)
    ensures TurnsLive(f, AscensionStage(f, ExposureStage(f, n)))
  {
    hide Acting, FindLiving, IsAlive;
  }

  lemma OutcomeTurnsTheLiving(s: GameState, rolls: Rolls)
    ensures forall u :: u in Outcome(s, rolls).conversions ==> IsAlive(s, u)
    ensures Outcome(s, rolls).ascension.Some? ==> IsAlive(s, Outcome(s, rolls).ascension.value)
  {
    hide HitStage, ShieldStage, SubstitutionStage, ConversionStage, ExposureStage, AscensionStage, DuelStage, LinkDeaths, WolfTarget, TurnsLive;
    var f := Facts(s, WolfTarget(s), rolls);
    var c := Clashes(f);
    NightOutcome.NobodyAscendsYet(f);
    NoConversionsYet(f);
    DuelTurnsLive(f, ClashStage(f, HunterStage(f, PlanAttacks(f, DUSK))));
    NightContext.NothingHitYet(f);
    StagesTurnTheLiving(f, c);
    StagesTurnTheLiving(f, HitStage(f, c));
    StagesTurnTheLiving(f, ShieldStage(f, HitStage(f, c)));
    NightPipeline.HitsLeftSpareThePack(f);
    ConversionTurnsTheLiving(f, HitsLeft(f));
    LastStagesTurnTheLiving(f, ConversionStage(f, HitsLeft(f)));
    TurnsLiveMeans(f, HouseAttacks(f));
    LinkKeepsTurns(s, HouseAttacks(f));
  }

  lemma NoConversionsYet(f: Facts)
    ensures ClashStage(f, HunterStage(f, PlanAttacks(f, DUSK))).conversions == map[]
  {
    hide Acting, Pack, RetaliateAll;
    var n := PlanAttacks(f, DUSK);
    NightContext.RetaliationHitsNobody(f, n, n.attacks);
  }

  lemma TurnsLiveMeans(f: Facts, n: Night)
    requires TurnsLive(f, n)
    ensures (forall u :: u in n.conversions ==> IsAlive(f.s, u)) && (n.ascension.Some? ==> IsAlive(f.s, n.ascension.value))
  {
  }

  lemma LinkKeepsTurns(s: GameState, n: Night)
    ensures DeathsTold(s, n).conversions == n.conversions && DeathsTold(s, n).ascension == n.ascension
  {
    hide LinkDeaths;
  }

  lemma FinishKeepsOrigin(s: GameState, w: VictoryResult, u: UserId)
    requires u in s.players
    ensures PatchedBy(u, s.players[u], FinishOffLosers(s, w)).originalRole == s.players[u].originalRole
    ensures PatchedBy(u, s.players[u], FinishOffLosers(s, w)).role == s.players[u].role
  {
    hide FinishOffLosers, PatchedBy;
    Runs.FinishedPlayer(s, w, u);
  }

  lemma NightKeepsOrigins(s: GameState, rolls: Rolls, now: int)
    requires Runs.Dealt(s) && OriginsKnown(s) && s.phase.Some?
    ensures OriginsKept(s, Morning(s, Outcome(s, rolls), now))
  {
    hide Outcome, NightPlayer, CheckVictory, FinishOffLosers, PatchedBy;
    var n := Outcome(s, rolls);
    OutcomeTurnsTheLiving(s, rolls);
    var projected := NightResolution.Projected(s, n);
    forall u | u in s.players ensures OriginKept(s.players[u], projected.players[u]) {
      NightPlayerOrigin(s, n, u, s.players[u]);
    }
    if CheckVictory(projected).Some? {
      forall u | u in s.players ensures OriginKept(s.players[u], Morning(s, n, now).players[u]) {
        FinishKeepsOrigin(projected, CheckVictory(projected).value, u);
      }
    }
  }

  lemma VotePlayerOrigin(s: GameState, selected: Option<UserId>, u: UserId)
    requires u in s.players && OriginsKnown(s)
    ensures OriginKept(s.players[u], DayVote.VotePlayer(s, selected, u, s.players[u]))
  {
    hide DayVote.DiesAtDusk;
  }

  lemma VoteKeepsOrigins(s: GameState, selected: Option<UserId>)
    requires OriginsKnown(s)
    ensures OriginsKept(s, DayVote.Dusk(s, selected))
  {
    hide DayVote.VotePlayer, CheckVictory, FinishOffLosers, PatchedBy, DayVote.DiesAtDusk, DayVote.WithPartner;
    var projected := DayVote.Projected(s, selected);
    forall u | u in s.players ensures OriginKept(s.players[u], projected.players[u]) { VotePlayerOrigin(s, selected, u); }
    if !(selected.Some? && Holds(s, selected.value, Veteran)) && CheckVictory(projected).Some? {
      forall u | u in s.players ensures OriginKept(s.players[u], DayVote.Dusk(s, selected).players[u]) {
        FinishKeepsOrigin(projected, CheckVictory(projected).value, u);
      }
    }
  }

  lemma StartKeepsOrigins(s: GameState, deal: seq<RoleId>, belief: RoleId, now: int)
    requires Runs.Inv(s) && Runs.Enabled(s, Runs.Start(deal, belief, now))
    ensures OriginsKept(s, Started(s, deal, belief, now))
  {
    hide Started, Composer.IsValidComposition, WellFormed, Runs.FactionsMatch;
    Runs.StartedShape(s, deal, belief, now);
    forall u | u in s.players ensures OriginKept(s.players[u], Started(s, deal, belief, now).players[u]) {
      Runs.StartedPlayer(s, deal, belief, now, u);
      if u in LobbyOf(s) { var i :| 0 <= i < |LobbyOf(s)| && LobbyOf(s)[i] == u; }
    }
  }

  /** Every step of a game keeps the players' starting roles. */
  lemma StepKeepsOrigins(s: GameState, step: Runs.Step)
    requires Runs.Inv(s) && OriginsKnown(s) && Runs.Enabled(s, step)
    ensures OriginsKept(s, Runs.Take(s, step)) && OriginsKnown(Runs.Take(s, step))
  {
    hide Started, Outcome, Morning, DayVote.Dusk, Refusal, CommandTransition, WellFormed, ClockHolds, Runs.RowsNotAhead, Runs.VotesName, Composer.IsValidComposition;
    match step
    case Start(deal, belief, now) => StartKeepsOrigins(s, deal, belief, now); Runs.StartedShape(s, deal, belief, now);
    case Act(u, c, now) => ActKeepsOrigins(s, u, c, now);
    case Expire(now, rolls) => ExpireKeepsOrigins(s, now, rolls);
    case _ =>
  }

  lemma ActKeepsOrigins(s: GameState, u: UserId, c: Command, now: int)
    requires OriginsKnown(s) && Refusal(s, u, c, now).None?
    ensures OriginsKept(s, Runs.Acted(s, u, c, now)) && OriginsKnown(Runs.Acted(s, u, c, now))
  {
    hide Refusal, CommandTransition;
    AcceptedInPhase(s, u, c, now);
    var t := Runs.Acted(s, u, c, now);
    CommandPlayers(s, u, c, now, u, t);
    forall v | v in s.players ensures OriginKept(s.players[v], t.players[v]) { CommandPlayers(s, u, c, now, v, t); }
  }

  lemma ExpireKeepsOrigins(s: GameState, now: int, rolls: Rolls)
    requires Runs.Dealt(s) && OriginsKnown(s) && s.phase.Some?
    ensures OriginsKept(s, Expired(s, now, rolls)) && OriginsKnown(Expired(s, now, rolls))
  {
    hide Outcome, CheckVictory, FinishOffLosers, NightPlayer, DayVote.VotePlayer, DayVote.DiesAtDusk, DayVote.WithPartner, PatchedBy;
    match s.phase.value.kind
    case Discussion =>
    case Voting => VoteKeepsOrigins(s, DayVote.Selected(s));
    case NightTime => NightKeepsOrigins(s, rolls, now);
  }

  // ---- Along whole games ----

  lemma StepKeepsSeats(s: GameState, step: Runs.Step)
    requires Runs.Enabled(s, step)
    ensures !Runs.Waiting(s) ==> s.players.Keys <= Runs.Take(s, step).players.Keys
  {
    hide Started, Outcome, Refusal, CommandTransition, CheckVictory, FinishOffLosers, NightPlayer, PatchedBy, DayVote.Selected, DayVote.VotePlayer,
      DayVote.DiesAtDusk, DayVote.WithPartner;
    if step.Act? { AcceptedInPhase(s, step.user, step.command, step.now); }
  }

  /** In every reachable state whoever has a role has had one from the start. */
  lemma {:induction false} OriginsAreKnown(s: GameState, steps: seq<Runs.Step>, t: GameState)
    requires Runs.Inv(s) && OriginsKnown(s) && Runs.Run(s, steps, t)
    ensures Runs.Inv(t) && OriginsKnown(t)
    decreases |steps|
  {
    hide Runs.Inv, OriginsKnown, Runs.Enabled, Runs.Take;
    if steps != [] {
      Runs.StepKeepsInv(s, steps[0]);
      StepKeepsOrigins(s, steps[0]);
      OriginsAreKnown(Runs.Take(s, steps[0]), steps[1..], t);
    }
  }

  /** Once a game has started, nobody's starting role ever changes. */
  lemma {:induction false} OriginsStay(s: GameState, steps: seq<Runs.Step>, t: GameState)
    requires Runs.Inv(s) && OriginsKnown(s) && !Runs.Waiting(s) && Runs.Run(s, steps, t)
    ensures s.players.Keys <= t.players.Keys && OriginsKept(s, t)
    decreases |steps|
  {
    hide Runs.Inv, Runs.Enabled, Runs.Take;
    if steps != [] {
      var next := Runs.Take(s, steps[0]);
      Runs.StepKeepsInv(s, steps[0]);
      StepKeepsOrigins(s, steps[0]);
      StepKeepsSeats(s, steps[0]);
      Runs.LivingNeverGrows(s, steps[0]);
      OriginsStay(next, steps[1..], t);
    }
  }

  /** From a new game on: starting roles are known, and those of a game that has
      started stay as they are. */
  lemma OriginsOfAGame(start: GameState, before: seq<Runs.Step>, s: GameState, steps: seq<Runs.Step>, t: GameState)
    requires Runs.Init(start) && Runs.Run(start, before, s) && Runs.Run(s, steps, t)
    ensures OriginsKnown(s) && (!Runs.Waiting(s) ==> s.players.Keys <= t.players.Keys && OriginsKept(s, t))
  {
    hide Runs.Run, Runs.Inv, OriginsKept;
    Runs.InitHolds(start);
    OriginsAreKnown(start, before, s);
    if !Runs.Waiting(s) { OriginsStay(s, steps, t); }
  }

  // ---- What delivery relies on ----

  lemma {:induction false} PatchesIgnoreMarkers(u: UserId, p: Player, since: map<Channel, nat>, patches: seq<PlayerPatch>)
    ensures PatchedBy(u, p.(channelSince := since), patches) == PatchedBy(u, p, patches).(channelSince := since)
    decreases |patches|
  {
    if patches != [] {
      PatchesIgnoreMarkers(u, if patches[0].playerId == u then Patched(p, patches[0].changes) else p, since, patches[1..]);
    }
  }

  /** A transition that takes the engine one step may be committed: its patches
      keep everybody's starting role, also on top of the markers its events write. */
  lemma EngineMayCommit(s: GameState, step: Runs.Step, tr: Transition, marked: GameHub.Players, last: nat)
    requires Runs.Inv(s) && OriginsKnown(s) && Runs.Enabled(s, step) && After(s, tr) == Runs.Take(s, step)
    requires GameDelivery.MarksOnly(s.players, marked, last)
    ensures GameDelivery.KeepsOrigins(marked, tr.players)
    ensures var stored := GameDelivery.Patched(marked, tr.players);
            && stored.Keys == s.players.Keys
            && forall u :: u in stored && u in Runs.Take(s, step).players ==>
                 stored[u] == Runs.Take(s, step).players[u].(channelSince := marked[u].channelSince)
  {
    hide Runs.Inv, Runs.Enabled, Runs.Take, PatchedBy;
    StepKeepsOrigins(s, step);
    forall u | u in marked
      ensures marked[u].originalRole.Some? ==> PatchedBy(u, marked[u], tr.players).originalRole == marked[u].originalRole
      ensures GameDelivery.KnownOrigin(PatchedBy(u, marked[u], tr.players))
      ensures PatchedBy(u, marked[u], tr.players).channelSince == marked[u].channelSince
      ensures u in Runs.Take(s, step).players
              && PatchedBy(u, marked[u], tr.players) == Runs.Take(s, step).players[u].(channelSince := marked[u].channelSince)
    {
      PatchesIgnoreMarkers(u, s.players[u], marked[u].channelSince, tr.players);
      assert After(s, tr).players[u] == PatchedBy(u, s.players[u], tr.players);
    }
  }
}
