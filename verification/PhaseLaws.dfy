/** How a day and a night end, from the stored votes to the next phase
    (packages/game-engine/src/resolution/phase.ts). */
module PhaseLaws {
  import opened Wrappers
  import opened Roles
  import opened GameState
  import opened Victory
  import opened NightIntents
  import opened NightStages
  import opened NightResolution
  import opened NightActors
  import opened NightLaws
  import opened VoteLaws
  import opened Phases
  import DayVote
  import Runs

  /** The day names this player: the mayor does, or, the mayor being silent, the most of
      the living do. */
  ghost predicate TheDayNames(s: GameState, v: UserId) {
    || (exists mayor :: HasSpoken(s, mayor, Some(v)))
    || ((forall u, t :: !HasSpoken(s, u, t)) && LeadsVote(s, v))
  }

  lemma NamedIsSelected(s: GameState, v: UserId)
    requires WellFormed(s) && SingleHolders(s) && IsAlive(s, v) && TheDayNames(s, v)
    ensures DayVote.Selected(s) == Some(v)
  {
    hide WellFormed, SingleHolders, LeadsVote, HasSpoken, DayVote.Selected;
    if mayor :| HasSpoken(s, mayor, Some(v)) { TheMayorDecides(s, mayor, Some(v)); } else { TheVotersDecide(s, v); }
  }

  /** Main result. Whom the day names is dead when it ends, with their living lover; only
      the princess is spared, once. */
  lemma TheDayEnds(s: GameState, now: int, rolls: Rolls, v: UserId, u: UserId)
    requires WellFormed(s) && SingleHolders(s) && s.phase.Some? && s.phase.value.kind == Voting
    requires IsAlive(s, v) && TheDayNames(s, v) && u in s.players
    ensures u in Expired(s, now, rolls).players
    ensures !IsSpared(s, v) && GoesAlong(s, v, u) ==> Expired(s, now, rolls).players[u].status == Dead
    ensures Expired(s, now, rolls).status != Finished && (IsSpared(s, v) || !GoesAlong(s, v, u)) ==>
              Expired(s, now, rolls).players[u].status == s.players[u].status
  {
    hide WellFormed, SingleHolders, TheDayNames, IsSpared, GoesAlong, DayVote.Dusk, DayVote.Selected, Morning;
    NamedIsSelected(s, v);
    TheDayTakes(s, v, u);
  }

  /** Nobody dies of a discussion, nor of a day that names nobody and does not end the
      game. */
  lemma NothingHappens(s: GameState, now: int, rolls: Rolls, u: UserId)
    requires s.phase.Some? && u in s.players
    ensures s.phase.value.kind == Discussion ==> Expired(s, now, rolls) == s.(phase := Expired(s, now, rolls).phase)
    ensures s.phase.value.kind == Voting && DayVote.Selected(s).None? && Expired(s, now, rolls).status != Finished ==>
              u in Expired(s, now, rolls).players && Expired(s, now, rolls).players[u].status == s.players[u].status
  {
    hide DayVote.Dusk, DayVote.Selected, Morning;
    if s.phase.value.kind == Voting && DayVote.Selected(s).None? && DayVote.Dusk(s, DayVote.Selected(s)).status != Finished { NobodyIsTaken(s, u); }
  }

  /** What the end of a game leaves of a player: finishing off may only kill. */
  lemma FinishingOnlyKills(s: GameState, w: VictoryResult, u: UserId)
    requires u in s.players
    ensures var q := ApplyPatches(s, FinishOffLosers(s, w)).players[u];
            && q == s.players[u].(status := q.status) && (q.status == s.players[u].status || q.status == Dead)
  {
    hide FinishOffLosers, PatchedBy;
    Runs.FinishedPlayer(s, w, u);
  }

  /** Main result. Whom the pack names is gone when the night ends. */
  lemma TheNightEnds(s: GameState, now: int, rolls: Rolls, v: UserId)
    requires AtNight(s) && IsAlive(s, v) && Unguarded(s, v)
    requires var role := s.players[v].role;
             role.Some? && role.value !in {Werewolf, AlphaWolf, Cub, Hunter, LoneWolf}
    requires forall w: UserId :: !WalksOut(s, v, w)
    requires HuntersOf(s, v) != {} && forall w: UserId :: w != v ==> |HuntersOf(s, w)| < |HuntersOf(s, v)|
    ensures v in Expired(s, now, rolls).players
    ensures var q := Expired(s, now, rolls).players[v]; q.status == Dead || q.role == Some(Werewolf) || q.role == Some(Cultist)
  {
    hide WalksOut, HuntersOf, Unguarded, Outcome, Projected, CheckVictory, FinishOffLosers, WellFormed, SingleHolders, DayVote.Dusk;
    TheNamedAreGone(s, rolls, v);
    var projected := Projected(s, Outcome(s, rolls));
    SameSeats(s, Outcome(s, rolls));
    if CheckVictory(projected).Some? { FinishingOnlyKills(projected, CheckVictory(projected).value, v); }
  }

  lemma SameSeats(s: GameState, n: Night)
    ensures Projected(s, n).players.Keys == s.players.Keys
  {
    hide NightPlayer;
  }
}
