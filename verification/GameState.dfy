/** The game state and its transitions (packages/game-engine/src/state.ts). */
module GameState {
  import opened Wrappers
  import opened Slices
  import opened Roles
  import ChatTypes
  import Sorting

  type UserId = ChatTypes.UserId
  type Text = ChatTypes.Text

  datatype PlayerStatus = InLobby | Alive | Dead | Spectator

  datatype GameStatus = Lobby | Scheduled | Running | Finished | Cancelled

  datatype PhaseType = Discussion | Voting | NightTime

  datatype Phase = Phase(id: nat, kind: PhaseType, startedAt: int, endsAt: int)

  datatype Vote = ForPlayer(target: UserId) | Abstain

  /** A stored action: no target, one target, or a pair. */
  datatype Choice = Bare | On(target: UserId) | OnPair(first: UserId, second: UserId)

  /** What a player did in one phase. `phaseId` is absent on a fresh row. */
  datatype PhaseState = PhaseState(phaseId: Option<nat>, vote: Option<Vote>, actions: map<ActionId, Choice>, ready: bool)

  const FRESH: PhaseState := PhaseState(None, None, map[], false)

  /** Role states, told apart by the field each carries. */
  datatype RoleState =
    | Blank
    | Believes(perceived: Option<RoleId>)
    | Linked(pair: Option<(UserId, UserId)>)
    | LastProtected(last: Option<UserId>)
    | Protegee(protegee: Option<UserId>)
    | MayorState(used: bool, overrideDay: Option<int>, overrideTarget: Option<UserId>)
    | PrincessState(protectionUsed: bool)

  datatype Player = Player(
    displayName: Text,
    isBot: bool,
    status: PlayerStatus,
    originalRole: Option<RoleId>,
    role: Option<RoleId>,
    faction: Option<FactionId>,
    roleState: RoleState,
    phaseState: PhaseState,
    channelSince: map<Channel, nat>)

  datatype VictoryReason = NoSurvivors | Stalemate | WolvesWin | SerialKillerWins | CultWins | VillageWins | VeteranLynched

  datatype VictoryResult = VictoryResult(faction: Option<FactionId>, players: set<UserId>, reason: VictoryReason)

  datatype Settings = Settings(discussionMs: nat, votingMs: nat, nightMs: nat)

  /** `roster` is the order in which the source enumerates the players. */
  datatype GameState = GameState(
    status: GameStatus,
    day: int,
    phase: Option<Phase>,
    roster: seq<UserId>,
    players: map<UserId, Player>,
    settings: Settings,
    nightsWithoutElimination: nat,
    winner: Option<VictoryResult>)

  ghost predicate WellFormed(s: GameState) {
    && Distinct(s.roster)
    && (forall u :: u in s.players ==> exists i :: 0 <= i < |s.roster| && s.roster[i] == u)
    && (forall i :: 0 <= i < |s.roster| ==> s.roster[i] in s.players)
  }

  predicate IsAlive(s: GameState, u: UserId) { u in s.players && s.players[u].status == Alive }

  predicate Holds(s: GameState, u: UserId, role: RoleId) { u in s.players && s.players[u].role == Some(role) }

  predicate IsPackMember(s: GameState, u: UserId) {
    u in s.players && s.players[u].role.Some? && InPack(s.players[u].role.value)
  }

  /** Ids in the order the source sorts them. */
  function SortedIds(ids: set<UserId>): (r: seq<UserId>)
    ensures forall i, j :: 0 <= i < j < |r| ==> r[i] < r[j]
    ensures forall u :: u in r <==> u in ids
    decreases |ids|
  {
    if ids == {} then []
    else
      var first: UserId := Sorting.Minimum(ids);
      var rest := SortedIds(ids - {first});
      assert forall i :: 0 <= i < |rest| ==> rest[i] in rest;
      [first] + rest
  }

  function Living(s: GameState): set<UserId> { set u | u in s.players && s.players[u].status == Alive }

  /** What a player believes their role is: only a Drunk can be wrong. */
  function PerceivedRole(p: Player): Option<RoleId> {
    if p.role == Some(Drunk) && p.roleState.Believes? && p.roleState.perceived.Some? then p.roleState.perceived else p.role
  }

  /** The state a role starts with. */
  function CreateState(role: RoleId): RoleState {
    match role
    case Drunk => Believes(None)
    case Mayor => MayorState(false, None, None)
    case Cupid => Linked(None)
    case Priest => LastProtected(None)
    case Guardian => Protegee(None)
    case Princess => PrincessState(false)
    case _ => Blank
  }

  // ---- Searching the roster ----

  /** First player of the roster, from `i`, that is alive, not among `dead`,
      and really holds `role`. */
  function FindBut(s: GameState, role: RoleId, dead: set<UserId>, i: nat): (r: Option<UserId>)
    requires i <= |s.roster|
    ensures r.Some? ==> IsAlive(s, r.value) && Holds(s, r.value, role) && r.value !in dead
    ensures r.None? ==> forall j :: i <= j < |s.roster| ==> !(IsAlive(s, s.roster[j]) && Holds(s, s.roster[j], role) && s.roster[j] !in dead)
    decreases |s.roster| - i
  {
    if i == |s.roster| then None
    else if IsAlive(s, s.roster[i]) && Holds(s, s.roster[i], role) && s.roster[i] !in dead then Some(s.roster[i])
    else FindBut(s, role, dead, i + 1)
  }

  function FindLiving(s: GameState, role: RoleId): (r: Option<UserId>)
    ensures r.Some? ==> IsAlive(s, r.value) && Holds(s, r.value, role)
  {
    FindBut(s, role, {}, 0)
  }

  function FindLivingBut(s: GameState, role: RoleId, dead: set<UserId>): (r: Option<UserId>)
    ensures r.Some? ==> IsAlive(s, r.value) && Holds(s, r.value, role) && r.value !in dead
  {
    FindBut(s, role, dead, 0)
  }

  // ---- Transitions ----

  datatype GamePatch = GamePatch(
    status: Option<GameStatus>, day: Option<int>, phase: Option<Phase>,
    winner: Option<VictoryResult>, nightsWithoutElimination: Option<nat>)

  const NO_PATCH: GamePatch := GamePatch(None, None, None, None, None)

  datatype Changes = Changes(
    status: Option<PlayerStatus>, originalRole: Option<RoleId>, role: Option<RoleId>, faction: Option<FactionId>,
    roleState: Option<RoleState>, phaseState: Option<PhaseState>)

  const NO_CHANGES: Changes := Changes(None, None, None, None, None, None)

  datatype PlayerPatch = PlayerPatch(playerId: UserId, changes: Changes)

  /** A faction-join event: it entitles the player to the channel from its id on. */
  datatype Join = Join(playerId: UserId, channel: Channel)

  datatype Transition = Transition(game: GamePatch, players: seq<PlayerPatch>, joins: seq<Join>)

  datatype ErrorCode = NotAMember | PhaseMismatch | PhaseClosed | ChatReadOnly | ChannelNotAvailable | NotAlive
    | ActionNotAvailable | InvalidTarget | InvalidMention | GameAlreadyStarted | GameNotStarted | MinPlayersNotReached | NoComposition

  datatype DomainResult = Ok(transition: Transition) | Err(code: ErrorCode)

  function Patched(p: Player, c: Changes): Player {
    p.(status := if c.status.Some? then c.status.value else p.status,
       originalRole := if c.originalRole.Some? then c.originalRole else p.originalRole,
       role := if c.role.Some? then c.role else p.role,
       faction := if c.faction.Some? then c.faction else p.faction,
       roleState := if c.roleState.Some? then c.roleState.value else p.roleState,
       phaseState := if c.phaseState.Some? then c.phaseState.value else p.phaseState)
  }

  /** One player after all the patches, in order. */
  function PatchedBy(u: UserId, p: Player, patches: seq<PlayerPatch>): (r: Player)
    decreases |patches|
  {
    if patches == [] then p
    else PatchedBy(u, if patches[0].playerId == u then Patched(p, patches[0].changes) else p, patches[1..])
  }

  /** Patches for players that are not in the game change nothing, as an update
      that matches no row. */
  function ApplyPatches(s: GameState, patches: seq<PlayerPatch>): (t: GameState) {
    s.(players := map u | u in s.players :: PatchedBy(u, s.players[u], patches))
  }

  function ApplyGamePatch(s: GameState, g: GamePatch): GameState {
    s.(status := if g.status.Some? then g.status.value else s.status,
       day := if g.day.Some? then g.day.value else s.day,
       phase := if g.phase.Some? then g.phase else s.phase,
       winner := if g.winner.Some? then g.winner else s.winner,
       nightsWithoutElimination := if g.nightsWithoutElimination.Some? then g.nightsWithoutElimination.value else s.nightsWithoutElimination)
  }

  /** The state the repository stores for a transition, leaving the channel
      markers to the event log. */
  function After(s: GameState, tr: Transition): GameState {
    ApplyPatches(ApplyGamePatch(s, tr.game), tr.players)
  }

  lemma {:induction false} PatchedByAppend(u: UserId, p: Player, x: seq<PlayerPatch>, y: seq<PlayerPatch>)
    ensures PatchedBy(u, p, x + y) == PatchedBy(u, PatchedBy(u, p, x), y)
    decreases |x|
  {
    if x == [] {
      assert x + y == y;
    } else {
      assert (x + y)[1..] == x[1..] + y;
      PatchedByAppend(u, if x[0].playerId == u then Patched(p, x[0].changes) else p, x[1..], y);
    }
  }

  lemma OnePatch(u: UserId, p: Player, patch: PlayerPatch)
    ensures PatchedBy(u, p, [patch]) == if patch.playerId == u then Patched(p, patch.changes) else p
  {
    assert PatchedBy(u, if patch.playerId == u then Patched(p, patch.changes) else p, [patch][1..])
        == if patch.playerId == u then Patched(p, patch.changes) else p;
  }

  lemma ApplyPatchesAppend(s: GameState, a: seq<PlayerPatch>, b: seq<PlayerPatch>)
    ensures ApplyPatches(s, a + b) == ApplyPatches(ApplyPatches(s, a), b)
  {
    hide PatchedBy;
    forall u | u in s.players ensures PatchedBy(u, s.players[u], a + b) == PatchedBy(u, PatchedBy(u, s.players[u], a), b) {
      PatchedByAppend(u, s.players[u], a, b);
    }
    assert ApplyPatches(s, a + b).players == ApplyPatches(ApplyPatches(s, a), b).players;
  }

  /** No patch sets a status other than dead. */
  ghost predicate OnlyKills(patches: seq<PlayerPatch>) {
    forall i :: 0 <= i < |patches| && patches[i].changes.status.Some? ==> patches[i].changes.status == Some(Dead)
  }

  predicate Kills(patches: seq<PlayerPatch>, u: UserId) {
    exists i :: 0 <= i < |patches| && patches[i].playerId == u && patches[i].changes.status == Some(Dead)
  }

  lemma {:induction false} KillsSplits(patches: seq<PlayerPatch>, u: UserId)
    requires patches != []
    ensures Kills(patches, u) <==>
            (patches[0].playerId == u && patches[0].changes.status == Some(Dead)) || Kills(patches[1..], u)
  {
    if Kills(patches[1..], u) {
      var i :| 0 <= i < |patches| - 1 && patches[1..][i].playerId == u && patches[1..][i].changes.status == Some(Dead);
      assert patches[i + 1].playerId == u && patches[i + 1].changes.status == Some(Dead);
    }
    if Kills(patches, u) {
      var i :| 0 <= i < |patches| && patches[i].playerId == u && patches[i].changes.status == Some(Dead);
      assert i > 0 ==> patches[1..][i - 1] == patches[i];
    }
  }

  /** Patches that only kill leave exactly the players they name dead. */
  lemma {:induction false} StatusAfter(u: UserId, p: Player, patches: seq<PlayerPatch>)
    requires OnlyKills(patches)
    ensures PatchedBy(u, p, patches).status == if Kills(patches, u) then Dead else p.status
    decreases |patches|
  {
    if patches != [] {
      var q := if patches[0].playerId == u then Patched(p, patches[0].changes) else p;
      StatusAfter(u, q, patches[1..]);
      KillsSplits(patches, u);
    }
  }
}
