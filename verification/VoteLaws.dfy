/** Whom a day takes, told from the votes and the records of the players
    (packages/game-engine/src/resolution/vote.ts). */
module VoteLaws {
  import opened Wrappers
  import opened Roles
  import opened Slices
  import opened GameState
  import opened Victory
  import opened Tally
  import opened NightIntents
  import NightLaws
  import opened DayVote

  /** A living player whose vote in the current phase names the target. */
  predicate VotesFor(s: GameState, u: UserId, target: UserId) {
    && IsAlive(s, u) && s.phase.Some?
    && s.players[u].phaseState.phaseId == Some(s.phase.value.id) && s.players[u].phaseState.vote == Some(ForPlayer(target))
  }

  function VotersFor(s: GameState, target: UserId): set<UserId> { set u | u in s.players && VotesFor(s, u, target) }

  function VotersAmong(s: GameState, target: UserId, n: nat): set<UserId>
    requires n <= |s.roster|
  {
    set u | u in s.roster[..n] && VotesFor(s, u, target)
  }

  lemma OneVoterMore(s: GameState, target: UserId, n: nat)
    requires n < |s.roster| && Distinct(s.roster)
    ensures |VotersAmong(s, target, n + 1)| == |VotersAmong(s, target, n)| + if VotesFor(s, s.roster[n], target) then 1 else 0
  {
    hide VotesFor;
    assert s.roster[..n + 1] == s.roster[..n] + [s.roster[n]];
    if VotesFor(s, s.roster[n], target) {
      assert VotersAmong(s, target, n + 1) == VotersAmong(s, target, n) + {s.roster[n]};
    } else {
      assert VotersAmong(s, target, n + 1) == VotersAmong(s, target, n);
    }
  }

  lemma {:induction false} BallotCounts(s: GameState, target: UserId, n: nat)
    requires n <= |s.roster| && Distinct(s.roster)
    ensures Count(BallotUpTo(s, n), target) == |VotersAmong(s, target, n)|
  {
    hide VotesFor, VoteOf, Count;
    if n == 0 {
      NobodyVotes(s, target);
    } else {
      BallotCounts(s, target, n - 1);
      OneVoterMore(s, target, n - 1);
      VoteIs(s, s.roster[n - 1], target);
      var vote := VoteOf(s, s.roster[n - 1]);
      if vote.Some? && vote.value.ForPlayer? {
        CountOneMore(BallotUpTo(s, n - 1), vote.value.target, target);
      } else {
        assert BallotUpTo(s, n) == BallotUpTo(s, n - 1);
      }
    }
  }

  lemma NobodyVotes(s: GameState, target: UserId)
    ensures Count([], target) == 0 == |VotersAmong(s, target, 0)|
  {
    assert VotersAmong(s, target, 0) == {};
  }

  lemma VoteIs(s: GameState, u: UserId, target: UserId)
    ensures VoteOf(s, u) == Some(ForPlayer(target)) <==> VotesFor(s, u, target)
  {
  }

  lemma BallotIsVoters(s: GameState, target: UserId)
    requires WellFormed(s)
    ensures Count(Ballot(s), target) == |VotersFor(s, target)|
  {
    hide VotesFor, BallotUpTo, Count;
    BallotCounts(s, target, |s.roster|);
    assert s.roster[..|s.roster|] == s.roster;
    assert VotersAmong(s, target, |s.roster|) == VotersFor(s, target);
  }

  // ---- Whom the day picks ----

  /** The living mayor has spoken today: for this target, or for nobody. */
  predicate HasSpoken(s: GameState, mayor: UserId, target: Option<UserId>) {
    && IsAlive(s, mayor) && s.players[mayor].role == Some(Mayor)
    && s.players[mayor].roleState == MayorState(true, Some(s.day), target)
  }

  /** The target leads the votes: somebody votes for them, and fewer for anybody else. */
  ghost predicate LeadsVote(s: GameState, target: UserId) {
    VotersFor(s, target) != {} && forall other: UserId :: other != target ==> |VotersFor(s, other)| < |VotersFor(s, target)|
  }

  lemma TheOneMayor(s: GameState, mayor: UserId, target: Option<UserId>)
    requires WellFormed(s) && SingleHolders(s) && HasSpoken(s, mayor, target)
    ensures MayorFrom(s, 0) == Some(mayor)
  {
    var i :| 0 <= i < |s.roster| && s.roster[i] == mayor;
    assert OverridesToday(s, s.roster[i]);
    assert SingleCopy(Mayor);
  }

  /** A mayor who has spoken today decides: their target, if alive, else nobody. */
  lemma TheMayorDecides(s: GameState, mayor: UserId, target: Option<UserId>)
    requires WellFormed(s) && SingleHolders(s) && HasSpoken(s, mayor, target)
    ensures Selected(s) == if target.Some? && IsAlive(s, target.value) then target else None
  {
    hide MayorFrom, Ballot, SingleHolders, WellFormed, Plurality;
    TheOneMayor(s, mayor, target);
  }

  lemma NoMayor(s: GameState)
    requires forall u, target :: !HasSpoken(s, u, target)
    ensures MayorFrom(s, 0).None?
  {
    if MayorFrom(s, 0).Some? {
      var mayor := MayorFrom(s, 0).value;
      assert HasSpoken(s, mayor, s.players[mayor].roleState.overrideTarget);
    }
  }

  /** Otherwise the votes do: the living player who strictly leads them, and nobody on a
      tie, without votes, or when the leader is not alive. */
  lemma TheVotersDecide(s: GameState, target: UserId)
    requires WellFormed(s) && forall u, t :: !HasSpoken(s, u, t)
    ensures Selected(s) == Some(target) <==> IsAlive(s, target) && LeadsVote(s, target)
  {
    hide MayorFrom, Ballot, WellFormed, HasSpoken, VotersFor, Count;
    NoMayor(s);
    forall v: UserId ensures Count(Ballot(s), v) == |VotersFor(s, v)| { BallotIsVoters(s, v); }
    if LeadsVote(s, target) { PluralityIs(Ballot(s), target); }
    if Selected(s) == Some(target) { assert Leads(Ballot(s), target); }
  }

  // ---- What becomes of them ----

  predicate AreLovers(s: GameState, u: UserId, v: UserId) { LinkPair(s) == Some((u, v)) || LinkPair(s) == Some((v, u)) }

  /** Goes with the selected player: that player, or their living lover. */
  predicate GoesAlong(s: GameState, v: UserId, u: UserId) { u == v || (AreLovers(s, u, v) && IsAlive(s, u)) }

  /** The princess, the first time. */
  predicate IsSpared(s: GameState, v: UserId) {
    v in s.players && s.players[v].role == Some(Princess) && s.players[v].roleState != PrincessState(true)
  }

  lemma WhoGoesAlong(s: GameState, v: UserId, u: UserId)
    ensures u in WithPartner(s, v) <==> GoesAlong(s, v, u)
  {
    hide LinkPair;
  }

  /** The dead of the day: the selected player and their living lover, nobody when the
      princess is spared or nobody was selected. */
  lemma WhoDiesAtDusk(s: GameState, selected: Option<UserId>, u: UserId)
    requires selected.Some? ==> IsAlive(s, selected.value)
    ensures u in DiesAtDusk(s, selected) <==> selected.Some? && !IsSpared(s, selected.value) && GoesAlong(s, selected.value, u)
  {
    hide LinkPair, WithPartner, GoesAlong;
    if selected.Some? {
      WhoGoesAlong(s, selected.value, u);
    }
  }

  lemma FinishingRevivesNobody(s: GameState, winner: VictoryResult, u: UserId)
    requires u in s.players && s.players[u].status == Dead
    ensures ApplyPatches(s, FinishOffLosers(s, winner)).players[u].status == Dead
  {
    if winner.faction.Some? {
      var ids := SortedIds(Living(s) - winner.players);
      KillAllKills(ids, u);
      StatusAfter(u, s.players[u], KillAll(ids));
    }
  }

  /** Main result. Whom the day picks is dead at dusk, and their living lover with them,
      also when that ends the game; nobody else dies while it goes on. A princess picked
      for the first time lives and cannot be spared again. */
  lemma TheDayTakes(s: GameState, v: UserId, u: UserId)
    requires WellFormed(s) && Selected(s) == Some(v) && u in s.players
    ensures IsAlive(s, v) && u in Dusk(s, Selected(s)).players
    ensures !IsSpared(s, v) && GoesAlong(s, v, u) ==> Dusk(s, Selected(s)).players[u].status == Dead
    ensures Dusk(s, Selected(s)).status != Finished && (IsSpared(s, v) || !GoesAlong(s, v, u)) ==>
              Dusk(s, Selected(s)).players[u].status == s.players[u].status
    ensures Dusk(s, Selected(s)).status != Finished && IsSpared(s, v) ==>
              Dusk(s, Selected(s)).players[v].roleState == PrincessState(true)
    ensures Dusk(s, Selected(s)).nightsWithoutElimination == if IsSpared(s, v) then s.nightsWithoutElimination else 0
  {
    hide Selected, CheckVictory, LinkPair, WithPartner, GoesAlong, DiesAtDusk, Orphan, IsSpared, FinishOffLosers, PatchedBy;
    assert IsAlive(s, v);
    WhoGoesAlong(s, v, u);
    WhoDiesAtDusk(s, Some(v), u);
    WhoDiesAtDusk(s, Some(v), v);
    TheyGoThemselves(s, v);
    if !Holds(s, v, Veteran) && IsSpared(s, v) { SparedIs(s, v); }
    VeteransAreNotSpared(s, v);
    var projected := Projected(s, Some(v));
    assert projected.players[u].status == if u in DiesAtDusk(s, Some(v)) then Dead else s.players[u].status;
    if CheckVictory(projected).Some? && u in DiesAtDusk(s, Some(v)) { FinishingRevivesNobody(projected, CheckVictory(projected).value, u); }
  }

  lemma TheyGoThemselves(s: GameState, v: UserId)
    ensures GoesAlong(s, v, v)
  {
  }

  lemma VeteransAreNotSpared(s: GameState, v: UserId)
    ensures Holds(s, v, Veteran) ==> !IsSpared(s, v)
  {
  }

  lemma SparedIs(s: GameState, v: UserId)
    requires IsSpared(s, v)
    ensures DiesAtDusk(s, Some(v)) == {} && Holds(s, v, Princess)
  {
    hide WithPartner;
  }

  /** Nobody dies on a day that picks nobody and does not end the game. */
  lemma NobodyIsTaken(s: GameState, u: UserId)
    requires Selected(s).None? && u in s.players && Dusk(s, Selected(s)).status != Finished
    ensures u in Dusk(s, Selected(s)).players && Dusk(s, Selected(s)).players[u].status == s.players[u].status
    ensures Dusk(s, Selected(s)).nightsWithoutElimination == s.nightsWithoutElimination
  {
    hide Selected, CheckVictory, Orphan, FinishOffLosers;
  }

  /** The day's verdict on a veteran: the game is over, and the veteran has won it with
      their living lover, dead or not. */
  lemma TheVeteranWins(s: GameState, v: UserId, u: UserId)
    requires Selected(s) == Some(v) && s.players[v].role == Some(Veteran)
    ensures var t := Dusk(s, Selected(s));
            && t.status == Finished && t.winner.Some?
            && t.winner.value.faction == Some(VeteranFaction) && t.winner.value.reason == VeteranLynched
            && (u in t.winner.value.players <==> u == v || AreLovers(s, u, v))
  {
    hide Selected, CheckVictory, LinkPair, Orphan, Projected;
  }

  /** A living lone wolf whom the day leaves, and leaves no living alpha. */
  ghost predicate IsOrphaned(s: GameState, dead: set<UserId>, u: UserId) {
    && IsAlive(s, u) && s.players[u].role == Some(LoneWolf) && u !in dead
    && forall alpha :: IsAlive(s, alpha) && s.players[alpha].role == Some(AlphaWolf) ==> alpha in dead
  }

  lemma TheOrphanIs(s: GameState, dead: set<UserId>, u: UserId)
    requires WellFormed(s) && SingleHolders(s)
    ensures Orphan(s, dead) == Some(u) <==> IsOrphaned(s, dead, u)
  {
    hide FindLivingBut, WellFormed, SingleHolders;
    NightLaws.FindsButTheDead(s, AlphaWolf, dead);
    NightLaws.FindsButTheDead(s, LoneWolf, dead);
    if IsOrphaned(s, dead, u) { NightLaws.OneLoneWolf(s, u, FindLivingBut(s, LoneWolf, dead)); }
  }

  /** An orphaned lone wolf is a werewolf from then on and is let into the pack's chat;
      nobody else changes sides. */
  lemma TheOrphanJoins(s: GameState, u: UserId)
    requires WellFormed(s) && SingleHolders(s) && u in s.players && Dusk(s, Selected(s)).status != Finished
    ensures var p, q := s.players[u], Dusk(s, Selected(s)).players[u];
            var orphaned := IsOrphaned(s, DiesAtDusk(s, Selected(s)), u);
            && q.role == (if orphaned then Some(Werewolf) else p.role)
            && q.faction == (if orphaned then Some(WolvesFaction) else p.faction)
            && (VoteJoins(s, Selected(s), u, WolvesChannel) <==> orphaned)
  {
    hide Selected, CheckVictory, Orphan, DiesAtDusk, IsOrphaned, FinishOffLosers, WithPartner, WellFormed, SingleHolders, IsAlive;
    TheOrphanIs(s, DiesAtDusk(s, Selected(s)), u);
  }
}
