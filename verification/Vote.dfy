/** The day's vote (packages/game-engine/src/resolution/vote.ts). */
module DayVote {
  import opened Wrappers
  import opened Sorting
  import opened Roles
  import opened GameState
  import opened Victory
  import opened Tally
  import NightIntents
  import NightOutcome

  // ---- Who is eliminated ----

  /** The vote a player's row holds for the current phase. */
  function VoteOf(s: GameState, u: UserId): Option<Vote> {
    if IsAlive(s, u) && s.phase.Some? && s.players[u].phaseState.phaseId == Some(s.phase.value.id)
    then s.players[u].phaseState.vote else None
  }

  function BallotUpTo(s: GameState, n: nat): seq<UserId>
    requires n <= |s.roster|
  {
    if n == 0 then []
    else
      var vote := VoteOf(s, s.roster[n - 1]);
      BallotUpTo(s, n - 1) + (if vote.Some? && vote.value.ForPlayer? then [vote.value.target] else [])
  }

  function Ballot(s: GameState): seq<UserId> { BallotUpTo(s, |s.roster|) }

  predicate OverridesToday(s: GameState, u: UserId) {
    && IsAlive(s, u) && Holds(s, u, Mayor)
    && s.players[u].roleState.MayorState? && s.players[u].roleState.used
    && s.players[u].roleState.overrideDay == Some(s.day)
  }

  function MayorFrom(s: GameState, i: nat): (r: Option<UserId>)
    requires i <= |s.roster|
    ensures r.Some? ==> OverridesToday(s, r.value)
    ensures r.None? ==> forall j :: i <= j < |s.roster| ==> !OverridesToday(s, s.roster[j])
    decreases |s.roster| - i
  {
    if i == |s.roster| then None else if OverridesToday(s, s.roster[i]) then Some(s.roster[i]) else MayorFrom(s, i + 1)
  }

  /** The mayor's word replaces the tally; a pardon or a dead target saves everyone. */
  function Chosen(s: GameState, tallied: Option<UserId>): Option<UserId> {
    var mayor := MayorFrom(s, 0);
    if mayor.None? then tallied
    else
      var target := s.players[mayor.value].roleState.overrideTarget;
      if target.Some? && IsAlive(s, target.value) then target else None
  }

  /** Whom the day picked, if they are alive to be picked. */
  ghost function Selected(s: GameState): (r: Option<UserId>)
    ensures r.Some? ==> IsAlive(s, r.value)
  {
    var chosen := Chosen(s, Plurality(Ballot(s)));
    if chosen.Some? && IsAlive(s, chosen.value) then chosen else None
  }

  // ---- What it does ----

  /** The princess survives her first selection. */
  predicate Saves(s: GameState, u: UserId) {
    Holds(s, u, Princess) && !(s.players[u].roleState.PrincessState? && s.players[u].roleState.protectionUsed)
  }

  function WithPartner(s: GameState, u: UserId): set<UserId> {
    var partner := LivingPartner(s, u, {u});
    if partner.Some? then {u, partner.value} else {u}
  }

  function DiesAtDusk(s: GameState, selected: Option<UserId>): set<UserId> {
    if selected.Some? && !Saves(s, selected.value) then WithPartner(s, selected.value) else {}
  }

  /** The lone wolf the alpha's death leaves without a quarry. */
  function Orphan(s: GameState, dead: set<UserId>): Option<UserId> {
    if FindLivingBut(s, AlphaWolf, dead).None? then FindLivingBut(s, LoneWolf, dead) else None
  }

  /** One player after the vote. */
  function VotePlayer(s: GameState, selected: Option<UserId>, u: UserId, p: Player): Player {
    var dead := DiesAtDusk(s, selected);
    var q := if u in dead then p.(status := Dead)
             else if selected == Some(u) then p.(roleState := PrincessState(true)) else p;
    if Orphan(s, dead) == Some(u) then q.(role := Some(Werewolf), faction := Some(WolvesFaction)) else q
  }

  function Projected(s: GameState, selected: Option<UserId>): GameState {
    s.(players := map u | u in s.players :: VotePlayer(s, selected, u, s.players[u]),
       nightsWithoutElimination := if DiesAtDusk(s, selected) != {} then 0 else s.nightsWithoutElimination)
  }

  function LynchedVeteran(s: GameState, veteran: UserId): VictoryResult {
    ApplyLoverRider(s, VictoryResult(Some(VeteranFaction), {veteran}, VeteranLynched))
  }

  /** The state the vote leads to, before the next phase is appended. */
  function Dusk(s: GameState, selected: Option<UserId>): GameState {
    if selected.Some? && Holds(s, selected.value, Veteran) then
      s.(players := map u | u in s.players ::
           if u in WithPartner(s, selected.value) then s.players[u].(status := Dead) else s.players[u],
         status := Finished, winner := Some(LynchedVeteran(s, selected.value)), nightsWithoutElimination := 0)
    else
      var projected := Projected(s, selected);
      var winner := CheckVictory(projected);
      if winner.Some? then
        ApplyPatches(projected, FinishOffLosers(projected, winner.value)).(status := Finished, winner := winner)
      else projected
  }

  predicate VoteJoins(s: GameState, selected: Option<UserId>, u: UserId, channel: Channel) {
    && !(selected.Some? && Holds(s, selected.value, Veteran))
    && Orphan(s, DiesAtDusk(s, selected)) == Some(u) && channel == WolvesChannel
  }

  // ---- The method ----

  method CountBallot(s: GameState) returns (tally: map<UserId, nat>)
    ensures Tallies(tally, Ballot(s))
  {
    hide VoteOf, Count;
    tally := map[];
    NoVotes();
    for i := 0 to |s.roster|
      invariant Tallies(tally, BallotUpTo(s, i))
    {
      var vote := VoteOf(s, s.roster[i]);
      if vote.Some? && vote.value.ForPlayer? {
        var target := vote.value.target;
        OneMoreVote(tally, BallotUpTo(s, i), target);
        tally := tally[target := (if target in tally then tally[target] else 0) + 1];
      } else {
        assert BallotUpTo(s, i + 1) == BallotUpTo(s, i);
      }
    }
  }

  lemma NoVotes()
    ensures Tallies(map[], [])
  {
  }

  lemma OneMoreVote(tally: map<UserId, nat>, votes: seq<UserId>, target: UserId)
    requires Tallies(tally, votes)
    ensures Tallies(tally[target := (if target in tally then tally[target] else 0) + 1], votes + [target])
  {
    assert (votes + [target])[..|votes|] == votes;
  }

  method Lynch(s: GameState, u: UserId) returns (patches: seq<PlayerPatch>)
    ensures forall v: UserId, p: Player :: PatchedBy(v, p, patches) == if v in WithPartner(s, u) then p.(status := Dead) else p
  {
    hide LivingPartner;
    var first := PlayerPatch(u, NO_CHANGES.(status := Some(Dead)));
    patches := [first];
    var partner := LivingPartner(s, u, {u});
    if partner.Some? { patches := patches + [PlayerPatch(partner.value, NO_CHANGES.(status := Some(Dead)))]; }
    forall v: UserId, p: Player
      ensures PatchedBy(v, p, patches) == if v in WithPartner(s, u) then p.(status := Dead) else p
    {
      OnePatch(v, p, first);
      if partner.Some? {
        PatchedByAppend(v, p, [first], [patches[1]]);
        OnePatch(v, PatchedBy(v, p, [first]), patches[1]);
      }
    }
  }

  /** The patches of a vote that does not lynch a veteran. */
  method VotePatches(s: GameState, selected: Option<UserId>) returns (patches: seq<PlayerPatch>, orphan: Option<UserId>)
    ensures forall v: UserId, p: Player :: PatchedBy(v, p, patches) == VotePlayer(s, selected, v, p)
    ensures orphan == Orphan(s, DiesAtDusk(s, selected))
  {
    hide WithPartner, Saves, PatchedBy, FindLivingBut;
    patches := [];
    NothingPatched();
    if selected.Some? {
      if Saves(s, selected.value) {
        var saved := PlayerPatch(selected.value, NO_CHANGES.(roleState := Some(PrincessState(true))));
        patches := [saved];
        forall v: UserId, p: Player ensures PatchedBy(v, p, patches) == if v == saved.playerId then Patched(p, saved.changes) else p {
          OnePatch(v, p, saved);
        }
      } else {
        patches := Lynch(s, selected.value);
        SelectedIsLynched(s, selected.value);
      }
    }
    orphan := Orphan(s, DiesAtDusk(s, selected));
    if orphan.Some? {
      var before := patches;
      var turned := PlayerPatch(orphan.value, NO_CHANGES.(role := Some(Werewolf), faction := Some(WolvesFaction)));
      patches := before + [turned];
      forall v: UserId, p: Player ensures PatchedBy(v, p, patches) == VotePlayer(s, selected, v, p) {
        PatchedByAppend(v, p, before, [turned]);
        OnePatch(v, PatchedBy(v, p, before), turned);
      }
    }
  }

  lemma NothingPatched()
    ensures forall v: UserId, p: Player :: PatchedBy(v, p, []) == p
  {
  }

  lemma SelectedIsLynched(s: GameState, u: UserId)
    ensures u in WithPartner(s, u)
  {
  }

  /** Everything but a lynched veteran. */
  method OrdinaryVote(s: GameState, selected: Option<UserId>) returns (transition: Transition)
    requires selected.Some? ==> !Holds(s, selected.value, Veteran)
    ensures After(s, transition) == Dusk(s, selected)
    ensures transition.game.phase.None? && transition.game.day.None?
    ensures forall u: UserId, channel :: Join(u, channel) in transition.joins <==> VoteJoins(s, selected, u, channel)
  {
    hide WithPartner, VotePlayer, PatchedBy, CheckVictory, Orphan, Saves, DiesAtDusk, Holds;
    var patches, orphan := VotePatches(s, selected);
    var joins := if orphan.Some? then [Join(orphan.value, WolvesChannel)] else [];
    var nights := if DiesAtDusk(s, selected) != {} then 0 else s.nightsWithoutElimination;
    PatchesProject(s, selected, patches);
    var projected := ApplyPatches(s, patches).(nightsWithoutElimination := nights);
    var winner := DecideVictory(projected);
    if winner.Some? {
      var terminal := FinishOffLosers(projected, winner.value);
      ApplyPatchesAppend(s, patches, terminal);
      return Transition(NO_PATCH.(status := Some(Finished), winner := winner, nightsWithoutElimination := Some(nights)),
                        patches + terminal, joins);
    }
    return Transition(if DiesAtDusk(s, selected) != {} then NO_PATCH.(nightsWithoutElimination := Some(0)) else NO_PATCH,
                      patches, joins);
  }

  method ResolveDayVote(s: GameState) returns (result: DomainResult)
    requires WellFormed(s)
    ensures !(s.phase.Some? && s.phase.value.kind == Voting) ==> result == Err(ActionNotAvailable)
    ensures s.phase.Some? && s.phase.value.kind == Voting ==>
              && result.Ok? && After(s, result.transition) == Dusk(s, Selected(s))
              && result.transition.game.phase.None? && result.transition.game.day.None?
              && forall u: UserId, channel :: Join(u, channel) in result.transition.joins <==> VoteJoins(s, Selected(s), u, channel)
  {
    hide Ballot, MayorFrom, WithPartner, PatchedBy, Plurality, Orphan, Projected, CheckVictory;
    if s.phase.None? || s.phase.value.kind != Voting { return Err(ActionNotAvailable); }
    var tally := CountBallot(s);
    var tallied := UniqueWinner(tally, Ballot(s));
    var chosen := Chosen(s, tallied);
    var selected := if chosen.Some? && IsAlive(s, chosen.value) then chosen else None;
    if selected.Some? && Holds(s, selected.value, Veteran) {
      var patches := Lynch(s, selected.value);
      var winner := LynchedVeteran(s, selected.value);
      return Ok(Transition(NO_PATCH.(status := Some(Finished), winner := Some(winner), nightsWithoutElimination := Some(0)), patches, []));
    }
    var transition := OrdinaryVote(s, selected);
    return Ok(transition);
  }

  lemma PatchesProject(s: GameState, selected: Option<UserId>, patches: seq<PlayerPatch>)
    requires forall v: UserId, p: Player :: PatchedBy(v, p, patches) == VotePlayer(s, selected, v, p)
    ensures ApplyPatches(s, patches).players == Projected(s, selected).players
  {
    hide PatchedBy, VotePlayer;
  }

  // ---- What every vote keeps ----

  function Voters(s: GameState, target: UserId, n: nat): set<int>
    requires n <= |s.roster|
  {
    set i | 0 <= i < n && VoteOf(s, s.roster[i]) == Some(ForPlayer(target))
  }

  lemma VotersOneMore(s: GameState, target: UserId, n: nat)
    requires n < |s.roster|
    ensures |Voters(s, target, n + 1)|
         == |Voters(s, target, n)| + if VoteOf(s, s.roster[n]) == Some(ForPlayer(target)) then 1 else 0
  {
    hide VoteOf;
    if VoteOf(s, s.roster[n]) == Some(ForPlayer(target)) {
      assert Voters(s, target, n + 1) == Voters(s, target, n) + {n};
    } else {
      assert Voters(s, target, n + 1) == Voters(s, target, n);
    }
  }

  lemma CountOneMore(votes: seq<UserId>, vote: UserId, target: UserId)
    ensures Count(votes + [vote], target) == Count(votes, target) + if vote == target then 1 else 0
  {
    assert (votes + [vote])[..|votes|] == votes;
  }

  /** The count of a target is the number of living players whose current vote
      names it. */
  lemma {:induction false} CountIsVoters(s: GameState, target: UserId, n: nat)
    requires n <= |s.roster|
    ensures Count(BallotUpTo(s, n), target) == |Voters(s, target, n)|
  {
    hide VoteOf, Voters, Count;
    if n == 0 {
      NoVoters(s, target);
    } else {
      CountIsVoters(s, target, n - 1);
      VotersOneMore(s, target, n - 1);
      var vote := VoteOf(s, s.roster[n - 1]);
      if vote.Some? && vote.value.ForPlayer? {
        CountOneMore(BallotUpTo(s, n - 1), vote.value.target, target);
      } else {
        assert BallotUpTo(s, n) == BallotUpTo(s, n - 1);
      }
    }
  }

  lemma NoVoters(s: GameState, target: UserId)
    ensures Count([], target) == 0 == |Voters(s, target, 0)|
  {
    assert Voters(s, target, 0) == {};
  }

  lemma DuskKillsTheLiving(s: GameState, selected: Option<UserId>)
    requires selected.Some? ==> IsAlive(s, selected.value)
    ensures DiesAtDusk(s, selected) <= Living(s)
    ensures selected.Some? ==> WithPartner(s, selected.value) <= Living(s)
  {
    hide LinkPair;
  }

  lemma ProjectedLiving(s: GameState, selected: Option<UserId>)
    ensures Living(Projected(s, selected)) == Living(s) - DiesAtDusk(s, selected)
  {
    hide DiesAtDusk, Orphan;
  }

  /** A vote that does not finish the game takes exactly the selected player and
      their partner, or nobody. */
  lemma VoteRemovesExactlyItsDead(s: GameState, selected: Option<UserId>, next: GameState)
    requires selected.Some? ==> IsAlive(s, selected.value)
    requires next == Dusk(s, selected) && next.status == s.status != Finished
    ensures DiesAtDusk(s, selected) <= Living(s)
    ensures Living(next) == Living(s) - DiesAtDusk(s, selected)
    ensures next == Projected(s, selected)
  {
    hide Projected, DiesAtDusk, CheckVictory, WithPartner;
    DuskKillsTheLiving(s, selected);
    ProjectedLiving(s, selected);
  }

  /** A vote never adds fuel, and keeps the quiet nights in bounds. */
  lemma VoteAddsNoFuel(s: GameState, selected: Option<UserId>, next: GameState)
    requires selected.Some? ==> IsAlive(s, selected.value)
    requires next == Dusk(s, selected) && next.status == s.status != Finished
    requires s.nightsWithoutElimination <= 4
    ensures NightOutcome.Fuel(next) <= NightOutcome.Fuel(s) && next.nightsWithoutElimination <= 4
  {
    hide DiesAtDusk, Dusk;
    VoteRemovesExactlyItsDead(s, selected, next);
    NightOutcome.SmallerSet(Living(next), Living(s));
    var dead := DiesAtDusk(s, selected);
    if dead != {} {
      var u: UserId := Minimum(dead);
      assert u in Living(s) && u !in Living(next);
    }
  }

  lemma VoteKeepsFactions(s: GameState, selected: Option<UserId>, u: UserId, p: Player)
    requires NightOutcome.RoleMatches(p)
    ensures NightOutcome.RoleMatches(VotePlayer(s, selected, u, p))
  {
    hide DiesAtDusk, Orphan;
  }

  lemma VoteKeepsSingleHolders(s: GameState, selected: Option<UserId>)
    requires NightIntents.SingleHolders(s)
    ensures NightIntents.SingleHolders(Projected(s, selected))
  {
    hide DiesAtDusk, Orphan;
    var t := Projected(s, selected);
    forall u, v, role | SingleCopy(role) && IsAlive(t, u) && IsAlive(t, v) && Holds(t, u, role) && Holds(t, v, role)
      ensures u == v
    {
      assert IsAlive(s, u) && Holds(s, u, role) && IsAlive(s, v) && Holds(s, v, role);
    }
  }
}
