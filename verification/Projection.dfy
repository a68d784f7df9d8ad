/** What one viewer is shown of a game (packages/game-engine/src/projection). */
module Projection {
  import opened Wrappers
  import opened Roles
  import opened Slices
  import opened GameState
  import opened GameChat
  import opened Actions
  import opened Tally
  import DayVote
  import NightIntents

  datatype ViewerPlayer = ViewerPlayer(userId: UserId, displayName: Text, status: PlayerStatus, revealedRole: Option<RoleId>, isBot: bool)

  datatype AvailableAction =
    | Plain(id: ActionId, selected: bool)
    | Targeting(id: ActionId, targets: seq<(UserId, bool)>, selectedTarget: Option<UserId>)
    | Pairing(id: ActionId, targets: seq<(UserId, bool)>, selectedPair: Option<(UserId, UserId)>)

  datatype Me = Me(
    userId: UserId, status: PlayerStatus, role: Option<RoleId>, faction: Option<FactionId>, roleState: RoleState,
    intent: Option<(Option<Vote>, map<ActionId, Choice>)>, ready: bool)

  datatype Snapshot = Snapshot(
    status: GameStatus, day: int, phase: Option<Phase>, settings: Settings, winner: Option<VictoryResult>,
    players: seq<ViewerPlayer>,
    voteTallies: Option<seq<(UserId, nat)>>,
    packBallot: Option<seq<(UserId, UserId)>>,
    availableActions: seq<AvailableAction>,
    channels: set<Channel>,
    knownMembers: map<Channel, seq<UserId>>,
    me: Option<Me>)

  // ---- The public part ----

  function ShownPlayer(u: UserId, p: Player, finished: bool): ViewerPlayer {
    ViewerPlayer(u, p.displayName, p.status, if p.status == Dead || finished then p.role else None, p.isBot)
  }

  function ShownPlayers(s: GameState, n: nat): (shown: seq<ViewerPlayer>)
    requires WellFormed(s) && n <= |s.roster|
  {
    if n == 0 then []
    else ShownPlayers(s, n - 1) + [ShownPlayer(s.roster[n - 1], s.players[s.roster[n - 1]], s.status == Finished)]
  }

  /** More votes first; equal counts by id. */
  predicate Ahead(a: (UserId, nat), b: (UserId, nat)) { a.1 > b.1 || (a.1 == b.1 && a.0 < b.0) }

  function Insert(entry: (UserId, nat), sorted: seq<(UserId, nat)>): seq<(UserId, nat)> {
    if sorted == [] || Ahead(entry, sorted[0]) then [entry] + sorted else [sorted[0]] + Insert(entry, sorted[1..])
  }

  function SortedTally(tally: map<UserId, nat>, ids: seq<UserId>): seq<(UserId, nat)>
    requires forall u :: u in ids ==> u in tally
  {
    if ids == [] then [] else Insert((ids[0], tally[ids[0]]), SortedTally(tally, ids[1..]))
  }

  function Entries(tally: map<UserId, nat>): seq<(UserId, nat)> { SortedTally(tally, SortedIds(tally.Keys)) }

  /** The bare counts of the running vote. */
  function TallyOf(s: GameState): map<UserId, nat> {
    map u | u in (set v | v in DayVote.Ballot(s)) :: Count(DayVote.Ballot(s), u)
  }

  function VoteTallies(s: GameState): Option<seq<(UserId, nat)>> {
    if s.phase.Some? && s.phase.value.kind == Voting then Some(Entries(TallyOf(s))) else None
  }

  lemma {:induction false} InsertIsIn(entry: (UserId, nat), sorted: seq<(UserId, nat)>, x: (UserId, nat))
    ensures x in Insert(entry, sorted) <==> x == entry || x in sorted
    decreases |sorted|
  {
    if sorted != [] && !Ahead(entry, sorted[0]) {
      InsertIsIn(entry, sorted[1..], x);
      assert x in sorted <==> x == sorted[0] || x in sorted[1..];
    }
  }

  ghost predicate InVoteOrder(sorted: seq<(UserId, nat)>) {
    forall i, j :: 0 <= i < j < |sorted| ==> Ahead(sorted[i], sorted[j])
  }

  lemma {:induction false} InsertKeepsOrder(entry: (UserId, nat), sorted: seq<(UserId, nat)>)
    requires InVoteOrder(sorted) && forall x :: x in sorted ==> x.0 != entry.0
    ensures InVoteOrder(Insert(entry, sorted))
    decreases |sorted|
  {
    if sorted == [] || Ahead(entry, sorted[0]) {
    } else {
      InsertKeepsOrder(entry, sorted[1..]);
      var rest := Insert(entry, sorted[1..]);
      assert sorted[0] in sorted;
      forall i | 0 <= i < |rest| ensures Ahead(sorted[0], rest[i]) {
        InsertIsIn(entry, sorted[1..], rest[i]);
        assert rest[i] in rest;
      }
    }
  }

  lemma {:induction false} SortedTallyIs(tally: map<UserId, nat>, ids: seq<UserId>)
    requires Distinct(ids) && forall u :: u in ids ==> u in tally
    ensures InVoteOrder(SortedTally(tally, ids))
    ensures forall x :: x in SortedTally(tally, ids) <==> x.0 in ids && x.1 == tally[x.0]
    decreases |ids|
  {
    if ids != [] {
      SortedTallyIs(tally, ids[1..]);
      var rest := SortedTally(tally, ids[1..]);
      var entry := (ids[0], tally[ids[0]]);
      assert ids[0] !in ids[1..];
      InsertKeepsOrder(entry, rest);
      forall x ensures x in SortedTally(tally, ids) <==> x.0 in ids && x.1 == tally[x.0] {
        InsertIsIn(entry, rest, x);
        assert x.0 in ids <==> x.0 == ids[0] || x.0 in ids[1..];
      }
    }
  }

  /** The shown tallies: every target with votes, with its number of voters,
      most votes first. */
  lemma TalliesShowTheCount(s: GameState, target: UserId)
    requires s.phase.Some? && s.phase.value.kind == Voting
    ensures InVoteOrder(VoteTallies(s).value)
    ensures forall count: nat :: (target, count) in VoteTallies(s).value <==>
              count > 0 && count == |DayVote.Voters(s, target, |s.roster|)|
  {
    hide Count, DayVote.VoteOf;
    var ids := SortedIds(TallyOf(s).Keys);
    SortedTallyIs(TallyOf(s), ids);
    CountedIsPresent(DayVote.Ballot(s), target);
    DayVote.CountIsVoters(s, target, |s.roster|);
  }

  method CountVoteTallies(s: GameState) returns (tallies: Option<seq<(UserId, nat)>>)
    ensures tallies == VoteTallies(s)
  {
    hide Count, DayVote.Ballot;
    if s.phase.None? || s.phase.value.kind != Voting { return None; }
    var tally := DayVote.CountBallot(s);
    TalliedIs(tally, DayVote.Ballot(s));
    assert tally == TallyOf(s);
    return Some(Entries(tally));
  }

  lemma TalliedIs(tally: map<UserId, nat>, votes: seq<UserId>)
    requires Tallies(tally, votes)
    ensures tally == map u | u in (set v | v in votes) :: Count(votes, u)
  {
    hide Count;
    forall u: UserId ensures u in tally <==> u in votes { CountedIsPresent(votes, u); }
  }

  // ---- The pack's part ----

  /** Whom this player of the pack is voting to attack right now. */
  function AttackVote(s: GameState, u: UserId): Option<UserId> {
    if IsAlive(s, u) && IsPackMember(s, u) && s.phase.Some? && s.players[u].phaseState.phaseId == Some(s.phase.value.id)
       && WolfAttack in s.players[u].phaseState.actions && s.players[u].phaseState.actions[WolfAttack].On?
    then Some(s.players[u].phaseState.actions[WolfAttack].target) else None
  }

  function BallotEntries(s: GameState, ids: seq<UserId>): seq<(UserId, UserId)> {
    if ids == [] then []
    else (if AttackVote(s, ids[0]).Some? then [(ids[0], AttackVote(s, ids[0]).value)] else []) + BallotEntries(s, ids[1..])
  }

  /** The pack's ballot, for a living member of it, at night. */
  function PackBallot(s: GameState, viewer: UserId): Option<seq<(UserId, UserId)>> {
    if s.phase.Some? && s.phase.value.kind == NightTime && IsAlive(s, viewer) && IsPackMember(s, viewer)
    then Some(BallotEntries(s, SortedIds(s.players.Keys))) else None
  }

  lemma {:induction false} BallotEntriesAre(s: GameState, ids: seq<UserId>, u: UserId, target: UserId)
    ensures (u, target) in BallotEntries(s, ids) <==> u in ids && AttackVote(s, u) == Some(target)
    decreases |ids|
  {
    hide AttackVote;
    if ids != [] {
      BallotEntriesAre(s, ids[1..], u, target);
      assert u in ids <==> u == ids[0] || u in ids[1..];
    }
  }

  // ---- The viewer's own part ----

  function Stored(s: GameState, p: Player, a: ActionId): Option<Choice> { NightIntents.StoredAction(s, p, a) }

  function ShownAction(s: GameState, u: UserId, a: ActionId): AvailableAction
    requires WellFormed(s) && u in s.players
  {
    var stored := Stored(s, s.players[u], a);
    match TargetOf(a)
    case NoTarget => Plain(a, stored.Some?)
    case PairTarget =>
      Pairing(a, ResolveTargets(s, u, a), if stored.Some? && stored.value.OnPair? then Some((stored.value.first, stored.value.second)) else None)
    case OneTarget(_, _) =>
      Targeting(a, ResolveTargets(s, u, a), if stored.Some? && stored.value.On? then Some(stored.value.target) else None)
  }

  function ShownActions(s: GameState, u: UserId, specs: seq<ActionId>): seq<AvailableAction>
    requires WellFormed(s) && u in s.players
  {
    if specs == [] then [] else [ShownAction(s, u, specs[0])] + ShownActions(s, u, specs[1..])
  }

  function MembersOf(s: GameState, u: UserId, channel: Channel): seq<UserId> {
    SortedIds(set v | v in s.players && Known(s, u, channel, v))
  }

  function KnownMembers(s: GameState, u: UserId): map<Channel, seq<UserId>>
    requires u in s.players
  {
    map channel: Channel | channel in {WolvesChannel, CultChannel} && Entitled(s.players[u], channel) :: MembersOf(s, u, channel)
  }

  /** The viewer's own card: a drunk is shown the state of a fresh player of the
      role they believe in. */
  function MyCard(s: GameState, u: UserId, p: Player): Me {
    var current := s.phase.Some? && p.phaseState.phaseId == Some(s.phase.value.id);
    var perceived := PerceivedRole(p);
    Me(u, p.status, perceived, p.faction,
       if p.role == Some(Drunk) && perceived.Some? then CreateState(perceived.value) else p.roleState,
       if current then Some((p.phaseState.vote, p.phaseState.actions)) else None,
       current && p.phaseState.ready)
  }

  /** Everything `viewer` is shown. */
  function ProjectSnapshot(s: GameState, viewer: UserId): Snapshot
    requires WellFormed(s)
  {
    var member := viewer in s.players;
    Snapshot(
      s.status, s.day, s.phase, s.settings, if s.status == Finished then s.winner else None,
      ShownPlayers(s, |s.roster|),
      VoteTallies(s),
      PackBallot(s, viewer),
      if member && s.players[viewer].status == Alive then ShownActions(s, viewer, OfferedList(s, s.players[viewer])) else [],
      if member then AvailableChannels(s.players[viewer]) else {PublicChannel},
      if member then KnownMembers(s, viewer) else map[],
      if member then Some(MyCard(s, viewer, s.players[viewer])) else None)
  }

  method BuildSnapshot(s: GameState, viewer: UserId) returns (snapshot: Snapshot)
    requires WellFormed(s)
    ensures snapshot == ProjectSnapshot(s, viewer)
  {
    hide VoteTallies, ShownAction, KnownMembers, WellFormed, OfferedUpTo;
    var tallies := CountVoteTallies(s);
    var ballot := PackBallot(s, viewer);
    var shown := [];
    for i := 0 to |s.roster|
      invariant shown == ShownPlayers(s, i)
    {
      shown := ShowOne(s, i, shown);
    }
    var winner := if s.status == Finished then s.winner else None;
    if viewer !in s.players {
      return Snapshot(s.status, s.day, s.phase, s.settings, winner, shown, tallies, ballot, [], {PublicChannel}, map[], None);
    }
    var player := s.players[viewer];
    var actions: seq<AvailableAction> := [];
    if player.status == Alive {
      var specs := GetActionSpecsFor(s, player);
      for i := 0 to |specs|
        invariant actions + ShownActions(s, viewer, specs[i..]) == ShownActions(s, viewer, specs)
      {
        actions := actions + [ShownAction(s, viewer, specs[i])];
      }
    }
    return Snapshot(s.status, s.day, s.phase, s.settings, winner, shown, tallies, ballot, actions,
                    AvailableChannels(player), KnownMembers(s, viewer), Some(MyCard(s, viewer, player)));
  }

  method ShowOne(s: GameState, i: nat, before: seq<ViewerPlayer>) returns (shown: seq<ViewerPlayer>)
    requires WellFormed(s) && i < |s.roster| && before == ShownPlayers(s, i)
    ensures shown == ShownPlayers(s, i + 1)
  {
    return before + [ShownPlayer(s.roster[i], s.players[s.roster[i]], s.status == Finished)];
  }

  // ---- What the snapshot does not depend on ----

  /** The two games agree on everything this viewer may know: the public facts,
      statuses, the roles of the dead, the bare vote counts and the viewer's own
      record. Living players may differ in role, faction, role state, votes,
      actions and markers. */
  ghost predicate AgreeFor(s: GameState, t: GameState, viewer: UserId) {
    && s.status == t.status && s.day == t.day && s.phase == t.phase && s.settings == t.settings
    && s.roster == t.roster && s.players.Keys == t.players.Keys
    && (forall u :: u in s.players ==>
         && s.players[u].displayName == t.players[u].displayName && s.players[u].isBot == t.players[u].isBot
         && s.players[u].status == t.players[u].status
         && (s.players[u].status == Dead ==> s.players[u].role == t.players[u].role))
    && TallyOf(s) == TallyOf(t)
    && (viewer in s.players ==> s.players[viewer] == t.players[viewer])
  }

  /** Outside the pack, in fact and in belief, and outside the secret channels. */
  predicate Outsider(p: Player) {
    && !(p.role.Some? && InPack(p.role.value)) && PerceivedRole(p) != Some(Werewolf)
    && !Entitled(p, WolvesChannel) && !Entitled(p, CultChannel)
  }

  lemma {:induction false} ShownPlayersAgree(s: GameState, t: GameState, viewer: UserId, n: nat)
    requires WellFormed(s) && WellFormed(t) && AgreeFor(s, t, viewer) && s.status != Finished && n <= |s.roster|
    ensures ShownPlayers(s, n) == ShownPlayers(t, n)
  {
    hide TallyOf;
    if n > 0 { ShownPlayersAgree(s, t, viewer, n - 1); }
  }

  lemma OffersAgree(s: GameState, t: GameState, p: Player, a: ActionId)
    requires s.day == t.day && s.phase == t.phase
    ensures Offered(s, p, a) == Offered(t, p, a)
  {
    hide Declared;
  }

  lemma {:induction false} OfferedListsAgree(s: GameState, t: GameState, p: Player, n: nat)
    requires s.day == t.day && s.phase == t.phase && n <= |Declared(p)|
    ensures OfferedUpTo(s, p, n) == OfferedUpTo(t, p, n)
  {
    hide Declared, Offered;
    if n > 0 {
      OfferedListsAgree(s, t, p, n - 1);
      OffersAgree(s, t, p, Declared(p)[n - 1]);
    }
  }

  /** No role but the werewolf's declares the attack. */
  lemma OutsidersDoNotAttack(p: Player)
    requires Outsider(p)
    ensures WolfAttack !in Declared(p)
  {
    hide Entitled;
  }

  lemma TargetsAgree(s: GameState, t: GameState, u: UserId, a: ActionId, i: nat)
    requires WellFormed(s) && WellFormed(t) && AgreeFor(s, t, u) && u in s.players && a != WolfAttack && i <= |s.roster|
    ensures ResolveTargetsFrom(s, u, a, i) == ResolveTargetsFrom(t, u, a, i)
    decreases |s.roster| - i
  {
    hide TallyOf;
    if i < |s.roster| { TargetsAgree(s, t, u, a, i + 1); }
  }

  lemma {:induction false} ActionsAgree(s: GameState, t: GameState, u: UserId, specs: seq<ActionId>)
    requires WellFormed(s) && WellFormed(t) && AgreeFor(s, t, u) && u in s.players && WolfAttack !in specs
    ensures ShownActions(s, u, specs) == ShownActions(t, u, specs)
    decreases |specs|
  {
    hide WellFormed, TallyOf;
    if specs != [] {
      TargetsAgree(s, t, u, specs[0], 0);
      ActionsAgree(s, t, u, specs[1..]);
    }
  }

  /** In an unfinished game an outsider's snapshot depends only on what the
      outsider may know. */
  lemma SecretsStayHidden(s: GameState, t: GameState, viewer: UserId)
    requires WellFormed(s) && WellFormed(t) && s.status != Finished && AgreeFor(s, t, viewer)
    requires viewer in s.players ==> Outsider(s.players[viewer])
    ensures ProjectSnapshot(s, viewer) == ProjectSnapshot(t, viewer)
  {
    hide WellFormed, TallyOf, ShownActions, ShownPlayers, Declared, OfferedUpTo;
    ShownPlayersAgree(s, t, viewer, |s.roster|);
    if viewer in s.players {
      var p := s.players[viewer];
      OfferedListsAgree(s, t, p, |Declared(p)|);
      OutsidersDoNotAttack(p);
      OfferedAreDeclared(s, p);
      ActionsAgree(s, t, viewer, OfferedList(s, p));
    }
  }

  lemma OfferedAreDeclared(s: GameState, p: Player)
    ensures forall a :: a in OfferedList(s, p) ==> a in Declared(p)
  {
    hide Declared;
  }
}
