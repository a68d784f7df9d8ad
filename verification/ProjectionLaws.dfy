/** What a snapshot shows, in the words of the rules, and what a drunk can make of
    their own (packages/game-engine/src/projection). */
module ProjectionLaws {
  import opened Wrappers
  import opened Roles
  import opened Slices
  import opened GameState
  import opened GameChat
  import opened Actions
  import opened Records
  import opened CommandLaws
  import opened Projection
  import opened VoteLaws
  import Tally
  import DayVote
  import NightIntents

  // ---- What everybody is shown ----

  lemma {:induction false} ShownAt(s: GameState, n: nat, i: nat)
    requires WellFormed(s) && i < n <= |s.roster|
    ensures |ShownPlayers(s, n)| == n
    ensures ShownPlayers(s, n)[i] == ShownPlayer(s.roster[i], s.players[s.roster[i]], s.status == Finished)
  {
    hide ShownPlayer, WellFormed;
    if n > 1 { ShownAt(s, n - 1, if i < n - 1 then i else 0); }
  }

  /** The players in their order, each with name, status and, once dead or when all is
      over, their role; the winners when all is over; in a vote every target with the
      number of its voters, most first. */
  lemma WhatEverybodySees(s: GameState, viewer: UserId, i: nat)
    requires WellFormed(s)
    ensures var shown := ProjectSnapshot(s, viewer);
            && shown.status == s.status && shown.day == s.day && shown.phase == s.phase && shown.settings == s.settings
            && shown.winner == (if s.status == Finished then s.winner else None)
            && (i < |s.roster| ==>
                  && i < |shown.players|
                  && var u, card := s.roster[i], shown.players[i];
                     && card.userId == u && card.displayName == s.players[u].displayName && card.isBot == s.players[u].isBot
                     && card.status == s.players[u].status
                     && card.revealedRole == if s.players[u].status == Dead || s.status == Finished then s.players[u].role else None)
            && (i >= |s.roster| ==> i >= |shown.players|)
  {
    hide VoteTallies, PackBallot, ShownActions, OfferedUpTo, KnownMembers, AvailableChannels, MyCard;
    if i < |s.roster| { ShownAt(s, |s.roster|, i); }
    else if s.roster != [] { ShownAt(s, |s.roster|, 0); }
  }

  lemma WhatTheTalliesSay(s: GameState, viewer: UserId, target: UserId)
    requires WellFormed(s)
    ensures var tallies := ProjectSnapshot(s, viewer).voteTallies;
            && (tallies.Some? <==> s.phase.Some? && s.phase.value.kind == Voting)
            && (tallies.Some? ==>
                  && (forall i, j :: 0 <= i < j < |tallies.value| ==>
                        var (x, y) := (tallies.value[i], tallies.value[j]); x.1 > y.1 || (x.1 == y.1 && x.0 < y.0))
                  && forall count: nat :: (target, count) in tallies.value <==> count > 0 && count == |VotersFor(s, target)|)
  {
    hide PackBallot, ShownActions, OfferedUpTo, KnownMembers, AvailableChannels, MyCard, ShownPlayers, VotersFor, TallyOf;
    if s.phase.Some? && s.phase.value.kind == Voting {
      TalliesShowTheCount(s, target);
      DayVote.CountIsVoters(s, target, |s.roster|);
      BallotIsVoters(s, target);
    }
  }

  // ---- What the pack is shown ----

  /** A living member of the pack whose attack stored for this phase names the target. */
  predicate Attacks(s: GameState, u: UserId, target: UserId) {
    && IsAlive(s, u) && OfThePack(s.players[u]) && s.phase.Some?
    && var row := s.players[u].phaseState;
       row.phaseId == Some(s.phase.value.id) && WolfAttack in row.actions && row.actions[WolfAttack] == On(target)
  }

  /** At night the living of the pack, and nobody else, are shown who of the pack attacks
      whom, by id. */
  lemma WhatThePackSees(s: GameState, viewer: UserId, u: UserId, target: UserId)
    requires WellFormed(s)
    ensures var ballot := ProjectSnapshot(s, viewer).packBallot;
            && (ballot.Some? <==> AtNight(s) && IsAlive(s, viewer) && OfThePack(s.players[viewer]))
            && (ballot.Some? ==> ((u, target) in ballot.value <==> Attacks(s, u, target)))
  {
    hide VoteTallies, ShownActions, OfferedUpTo, KnownMembers, AvailableChannels, MyCard, ShownPlayers, WellFormed, AttackVote;
    BallotEntriesAre(s, SortedIds(s.players.Keys), u, target);
    AttackVoteIs(s, u, target);
  }

  lemma AttackVoteIs(s: GameState, u: UserId, target: UserId)
    ensures AttackVote(s, u) == Some(target) <==> u in s.players && Attacks(s, u, target)
  {
  }

  // ---- What one is shown of oneself ----

  function IdOf(action: AvailableAction): ActionId { action.id }

  lemma {:induction false} ShownActionsAre(s: GameState, u: UserId, specs: seq<ActionId>, i: nat)
    requires WellFormed(s) && u in s.players && i < |specs|
    ensures |ShownActions(s, u, specs)| == |specs| && ShownActions(s, u, specs)[i] == ShownAction(s, u, specs[i])
    decreases |specs|
  {
    hide ShownAction, WellFormed;
    if |specs| > 1 { ShownActionsAre(s, u, specs[1..], if i > 0 then i - 1 else 0); }
  }

  lemma NoActions(s: GameState, u: UserId)
    requires WellFormed(s) && u in s.players
    ensures ShownActions(s, u, []) == []
  {
  }

  /** The actions shown are those the viewer may take now, each with the players it may
      name and the choice stored for this phase. */
  lemma WhichActionsAreShown(s: GameState, viewer: UserId, a: ActionId)
    requires WellFormed(s)
    ensures var actions := ProjectSnapshot(s, viewer).availableActions;
            && ((exists i :: 0 <= i < |actions| && IdOf(actions[i]) == a) <==> viewer in s.players && MayAct(s, s.players[viewer], a))
            && forall i :: 0 <= i < |actions| && IdOf(actions[i]) == a ==> ShowsAction(s, viewer, actions[i])
  {
    hide VoteTallies, PackBallot, KnownMembers, AvailableChannels, MyCard, ShownPlayers, WellFormed, MayAct, Offered, ShownAction, OfferedUpTo;
    var actions := ProjectSnapshot(s, viewer).availableActions;
    if viewer in s.players {
      var p := s.players[viewer];
      WhoMayAct(s, p, a);
      OnlyTheLivingAct(s, p, a);
      if p.status == Alive {
        var specs := OfferedList(s, p);
        AllOffered(s, p, a);
        if specs == [] { NoActions(s, viewer); }
        else { ShownActionsAre(s, viewer, specs, 0); }
        forall i | 0 <= i < |specs| ensures i < |actions| && IdOf(actions[i]) == specs[i] && ShowsAction(s, viewer, actions[i]) {
          ShownActionsAre(s, viewer, specs, i);
          assert specs[i] in specs;
          DeclaredWhenOffered(s, p, specs[i]);
          ShownActionIs(s, viewer, specs[i]);
        }
        if MayAct(s, p, a) {
          var i :| 0 <= i < |specs| && specs[i] == a;
          assert IdOf(actions[i]) == a;
        }
      }
    }
  }

  lemma OnlyTheLivingAct(s: GameState, p: Player, a: ActionId)
    ensures MayAct(s, p, a) ==> p.status == Alive
  {
  }

  lemma AllOffered(s: GameState, p: Player, a: ActionId)
    ensures a in OfferedList(s, p) <==> Offered(s, p, a)
  {
    hide Offered, OfferedUpTo, Declared;
    assert Declared(p)[..|Declared(p)|] == Declared(p);
    DeclaredWhenOffered(s, p, a);
  }

  lemma DeclaredWhenOffered(s: GameState, p: Player, a: ActionId)
    ensures Offered(s, p, a) ==> a in Declared(p) && s.phase.Some?
  {
    hide Declared;
  }

  /** An action as it is shown: whom it may name, and the choice stored for this phase. */
  ghost predicate ShowsAction(s: GameState, u: UserId, shown: AvailableAction) {
    && u in s.players && s.phase.Some?
    && var row := s.players[u].phaseState;
       var stored := if row.phaseId == Some(s.phase.value.id) && shown.id in row.actions then Some(row.actions[shown.id]) else None;
       match shown
       case Plain(a, selected) => a in {HarlotStay, SerialKillerStay, MayorPardon} && (selected <==> stored.Some?)
       case Targeting(a, targets, selected) =>
         && (forall v: UserId :: (v, true) in targets <==> MayName(s, u, a, v))
         && (forall v: UserId :: selected == Some(v) <==> stored == Some(On(v)))
       case Pairing(a, targets, selected) =>
         && a == CupidLink && (forall v: UserId :: (v, true) in targets <==> MayName(s, u, a, v))
         && (forall v: UserId, w: UserId :: selected == Some((v, w)) <==> stored == Some(OnPair(v, w)))
  }

  lemma ShownActionIs(s: GameState, u: UserId, a: ActionId)
    requires WellFormed(s) && u in s.players && s.phase.Some?
    ensures IdOf(ShownAction(s, u, a)) == a && ShowsAction(s, u, ShownAction(s, u, a))
  {
    hide WellFormed, MayName, Eligible;
    forall v: UserId ensures Eligible(s, u, a, v) <==> MayName(s, u, a, v) { WhomItMayName(s, u, a, v); }
  }

  /** The card: the role one takes oneself for, and its state, a drunk's as if never
      used; the vote, the actions and the readiness of this phase; the open channels,
      and in each secret one whom one may mention, by id. */
  lemma WhatOneSeesOfOneself(s: GameState, viewer: UserId, channel: Channel)
    requires WellFormed(s)
    ensures var shown := ProjectSnapshot(s, viewer);
            && (viewer !in s.players ==> shown.me.None? && shown.channels == {PublicChannel} && shown.knownMembers == map[])
            && (viewer in s.players ==>
                  && shown.me.Some?
                  && var p, me := s.players[viewer], shown.me.value;
                     && me.userId == viewer && me.status == p.status && me.faction == p.faction
                     && (p.role != Some(Drunk) ==> me.role == p.role && me.roleState == p.roleState)
                     && (forall role :: p.role == Some(Drunk) && p.roleState == Believes(Some(role)) ==>
                           me.role == Some(role) && me.roleState == CreateState(role))
                     && (if s.phase.Some? && p.phaseState.phaseId == Some(s.phase.value.id)
                         then me.intent == Some((p.phaseState.vote, p.phaseState.actions)) && me.ready == p.phaseState.ready
                         else me.intent.None? && !me.ready)
                     && (channel in shown.channels <==> MayRead(p, channel))
                     && (channel in shown.knownMembers <==> channel in {WolvesChannel, CultChannel} && MayRead(p, channel))
                     && (channel in shown.knownMembers ==> ListsKnown(s, viewer, channel, shown.knownMembers[channel])))
  {
    hide VoteTallies, PackBallot, ShownActions, OfferedUpTo, ShownPlayers, WellFormed, Entitled, MayRead, Known;
    if viewer in s.players { WhoMayRead(s.players[viewer], channel); }
  }

  /** Exactly those one may mention there, by id. */
  ghost predicate ListsKnown(s: GameState, viewer: UserId, channel: Channel, ids: seq<UserId>) {
    && (forall i, j :: 0 <= i < j < |ids| ==> ids[i] < ids[j])
    && forall v: UserId :: v in ids <==> v in s.players && Known(s, viewer, channel, v)
  }

  // ---- The drunk ----

  /** The same game, but the drunk has been right all along, with a power never used. */
  function Sober(s: GameState, drunk: UserId, role: RoleId): GameState
    requires drunk in s.players
  {
    s.(players := s.players[drunk := s.players[drunk].(role := Some(role), roleState := CreateState(role))])
  }

  ghost predicate IsDrunk(s: GameState, drunk: UserId, role: RoleId) {
    && WellFormed(s) && s.status != Finished && IsAlive(s, drunk)
    && s.players[drunk].role == Some(Drunk) && s.players[drunk].roleState == Believes(Some(role))
    && role in {Seer, Cupid, Priest, Guardian, Detective}
  }

  lemma SoberIsWellFormed(s: GameState, drunk: UserId, role: RoleId)
    requires IsDrunk(s, drunk, role)
    ensures WellFormed(Sober(s, drunk, role))
  {
  }

  lemma {:induction false} CardsTheSame(s: GameState, drunk: UserId, role: RoleId, n: nat)
    requires IsDrunk(s, drunk, role) && WellFormed(Sober(s, drunk, role)) && n <= |s.roster|
    ensures ShownPlayers(s, n) == ShownPlayers(Sober(s, drunk, role), n)
  {
    if n > 0 { CardsTheSame(s, drunk, role, n - 1); }
  }

  lemma {:induction false} BallotsTheSame(s: GameState, drunk: UserId, role: RoleId, n: nat)
    requires IsDrunk(s, drunk, role) && n <= |s.roster|
    ensures DayVote.BallotUpTo(s, n) == DayVote.BallotUpTo(Sober(s, drunk, role), n)
  {
    hide WellFormed;
    if n > 0 { BallotsTheSame(s, drunk, role, n - 1); }
  }

  lemma OffersTheSame(s: GameState, drunk: UserId, role: RoleId, a: ActionId)
    requires IsDrunk(s, drunk, role)
    ensures Declared(s.players[drunk]) == Declared(Sober(s, drunk, role).players[drunk])
    ensures Offered(s, s.players[drunk], a) == Offered(Sober(s, drunk, role), Sober(s, drunk, role).players[drunk], a)
  {
    hide WellFormed, ActionsOf;
  }

  lemma {:induction false} SpecsTheSame(s: GameState, drunk: UserId, role: RoleId, n: nat)
    requires drunk in s.players && IsDrunk(s, drunk, role)
    requires n <= |Declared(s.players[drunk])| == |Declared(Sober(s, drunk, role).players[drunk])|
    ensures OfferedUpTo(s, s.players[drunk], n) == OfferedUpTo(Sober(s, drunk, role), Sober(s, drunk, role).players[drunk], n)
  {
    hide IsDrunk, Declared, Offered, Sober;
    if n > 0 {
      SpecsTheSame(s, drunk, role, n - 1);
      OffersTheSame(s, drunk, role, Declared(s.players[drunk])[n - 1]);
    }
  }

  lemma TargetTheSame(s: GameState, drunk: UserId, role: RoleId, a: ActionId, v: UserId)
    requires IsDrunk(s, drunk, role)
    ensures Eligible(s, drunk, a, v) == Eligible(Sober(s, drunk, role), drunk, a, v)
  {
    hide WellFormed;
  }

  lemma {:induction false} TargetsTheSame(s: GameState, drunk: UserId, role: RoleId, a: ActionId, i: nat)
    requires IsDrunk(s, drunk, role) && WellFormed(s) && WellFormed(Sober(s, drunk, role)) && i <= |s.roster|
    ensures Sober(s, drunk, role).roster == s.roster
    ensures ResolveTargetsFrom(s, drunk, a, i) == ResolveTargetsFrom(Sober(s, drunk, role), drunk, a, i)
    decreases |s.roster| - i
  {
    hide IsDrunk, Eligible, WellFormed;
    if i < |s.roster| {
      TargetsTheSame(s, drunk, role, a, i + 1);
      TargetTheSame(s, drunk, role, a, s.roster[i]);
    }
  }

  lemma {:induction false} ActionsTheSame(s: GameState, drunk: UserId, role: RoleId, specs: seq<ActionId>)
    requires IsDrunk(s, drunk, role) && WellFormed(s) && WellFormed(Sober(s, drunk, role)) && drunk in s.players
    ensures ShownActions(s, drunk, specs) == ShownActions(Sober(s, drunk, role), drunk, specs)
    decreases |specs|
  {
    hide IsDrunk, WellFormed, ResolveTargetsFrom;
    if specs != [] {
      TargetsTheSame(s, drunk, role, specs[0], 0);
      ActionsTheSame(s, drunk, role, specs[1..]);
    }
  }

  lemma VotesTheSame(s: GameState, drunk: UserId, role: RoleId)
    requires IsDrunk(s, drunk, role)
    ensures VoteTallies(s) == VoteTallies(Sober(s, drunk, role))
    ensures PackBallot(s, drunk) == None == PackBallot(Sober(s, drunk, role), drunk)
  {
    hide WellFormed, DayVote.BallotUpTo, Entries, BallotEntries, Tally.Count;
    BallotsTheSame(s, drunk, role, |s.roster|);
    assert TallyOf(s) == TallyOf(Sober(s, drunk, role));
  }

  lemma RoomsTheSame(s: GameState, drunk: UserId, role: RoleId)
    requires drunk in s.players && IsDrunk(s, drunk, role)
    ensures MyCard(s, drunk, s.players[drunk]) == MyCard(Sober(s, drunk, role), drunk, Sober(s, drunk, role).players[drunk])
    ensures AvailableChannels(s.players[drunk]) == AvailableChannels(Sober(s, drunk, role).players[drunk])
    ensures KnownMembers(s, drunk) == KnownMembers(Sober(s, drunk, role), drunk) == map[]
  {
    hide WellFormed, MembersOf;
    assert forall channel :: Entitled(s.players[drunk], channel) <==> Entitled(Sober(s, drunk, role).players[drunk], channel);
  }

  lemma OfferedTheSame(s: GameState, drunk: UserId, role: RoleId)
    requires drunk in s.players && IsDrunk(s, drunk, role) && WellFormed(s) && WellFormed(Sober(s, drunk, role))
    ensures var t := Sober(s, drunk, role);
            ShownActions(s, drunk, OfferedList(s, s.players[drunk])) == ShownActions(t, drunk, OfferedList(t, t.players[drunk]))
  {
    hide IsDrunk, ShownActions, OfferedUpTo, WellFormed, Declared, Offered, Sober;
    OffersTheSame(s, drunk, role, SeerInspect);
    SpecsTheSame(s, drunk, role, |Declared(s.players[drunk])|);
    ActionsTheSame(s, drunk, role, OfferedList(s, s.players[drunk]));
  }

  /** Main result. A drunk cannot tell: while they live and the game goes on, they are
      shown exactly what they would be shown if they really held the role. */
  lemma TheDrunkCannotTell(s: GameState, drunk: UserId, role: RoleId)
    requires IsDrunk(s, drunk, role)
    ensures WellFormed(Sober(s, drunk, role))
    ensures ProjectSnapshot(s, drunk) == ProjectSnapshot(Sober(s, drunk, role), drunk)
  {
    hide ShownActions, ShownPlayers, OfferedUpTo, VoteTallies, PackBallot, MyCard, AvailableChannels, KnownMembers, CreateState;
    SoberIsWellFormed(s, drunk, role);
    CardsTheSame(s, drunk, role, |s.roster|);
    VotesTheSame(s, drunk, role);
    RoomsTheSame(s, drunk, role);
    OfferedTheSame(s, drunk, role);
  }
}
