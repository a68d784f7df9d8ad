/** Starting a game and resolving its phases
    (packages/game-engine/src/resolution/phase.ts). */
module Phases {
  import opened Wrappers
  import opened Roles
  import opened Slices
  import opened GameState
  import opened Victory
  import opened Composer
  import opened Commands
  import opened NightStages
  import opened NightResolution
  import DayVote

  const MIN_PLAYERS: nat := 5

  // ---- Starting ----

  /** The dice of a start. `swaps[i]` is the draw of the i-th swap of the
      shuffle, missing draws reading as 0; `belief` picks what the drunk thinks. */
  datatype Dice = Dice(drawn: nat, pick: nat, swaps: seq<nat>, belief: RoleId)

  function StateDealt(role: RoleId, belief: RoleId): RoleState {
    if role == Drunk then Believes(Some(belief)) else CreateState(role)
  }

  function LobbyUpTo(s: GameState, n: nat): (lobby: seq<UserId>)
    requires n <= |s.roster|
    ensures |lobby| <= n
    ensures forall u :: u in lobby <==> u in s.roster[..n] && u in s.players && s.players[u].status == InLobby
  {
    if n == 0 then []
    else
      var u := s.roster[n - 1];
      assert s.roster[..n] == s.roster[..n - 1] + [u];
      LobbyUpTo(s, n - 1) + (if u in s.players && s.players[u].status == InLobby then [u] else [])
  }

  function LobbyOf(s: GameState): (lobby: seq<UserId>)
    ensures forall u :: u in lobby <==> u in s.roster && u in s.players && s.players[u].status == InLobby
  {
    assert s.roster[..|s.roster|] == s.roster;
    LobbyUpTo(s, |s.roster|)
  }

  lemma {:induction false} LobbyIsDistinct(s: GameState, n: nat)
    requires Distinct(s.roster) && n <= |s.roster|
    ensures Distinct(LobbyUpTo(s, n))
  {
    if n > 0 {
      LobbyIsDistinct(s, n - 1);
      var lobby, u := LobbyUpTo(s, n - 1), s.roster[n - 1];
      assert u !in s.roster[..n - 1];
      forall i | 0 <= i < |lobby| ensures lobby[i] != u { assert lobby[i] in lobby; }
    }
  }

  function Seated(p: Player, role: RoleId, belief: RoleId): Player {
    p.(status := Alive, originalRole := Some(role), role := Some(role), faction := Some(StartingFaction(role)),
       roleState := StateDealt(role, belief))
  }

  function SeatChanges(role: RoleId, belief: RoleId): Changes {
    NO_CHANGES.(status := Some(Alive), originalRole := Some(role), role := Some(role), faction := Some(StartingFaction(role)),
                roleState := Some(StateDealt(role, belief)))
  }

  function SeatPatches(lobby: seq<UserId>, deal: seq<RoleId>, belief: RoleId): seq<PlayerPatch>
    requires |lobby| == |deal|
  {
    seq(|lobby|, i requires 0 <= i < |lobby| => PlayerPatch(lobby[i], SeatChanges(deal[i], belief)))
  }

  /** The i-th player of the lobby gets the i-th role; nobody else is touched. */
  lemma {:induction false} SeatPatchesSeat(lobby: seq<UserId>, deal: seq<RoleId>, belief: RoleId, u: UserId, p: Player)
    requires |lobby| == |deal| && Distinct(lobby)
    ensures u !in lobby ==> PatchedBy(u, p, SeatPatches(lobby, deal, belief)) == p
    ensures forall i :: 0 <= i < |lobby| && lobby[i] == u ==>
              PatchedBy(u, p, SeatPatches(lobby, deal, belief)) == Seated(p, deal[i], belief)
    decreases |lobby|
  {
    var patches := SeatPatches(lobby, deal, belief);
    if lobby != [] {
      var rest := SeatPatches(lobby[1..], deal[1..], belief);
      assert patches[1..] == rest;
      var q := if lobby[0] == u then Patched(p, SeatChanges(deal[0], belief)) else p;
      SeatPatchesSeat(lobby[1..], deal[1..], belief, u, q);
      forall i | 0 <= i < |lobby| && lobby[i] == u ensures PatchedBy(u, p, patches) == Seated(p, deal[i], belief) {
        assert lobby[0] !in lobby[1..];
        if i > 0 { assert lobby[1..][i - 1] == u && deal[1..][i - 1] == deal[i]; }
      }
    }
  }

  function Swapped(roles: seq<RoleId>, i: nat, j: nat): seq<RoleId>
    requires i < |roles| && j < |roles|
  {
    roles[i := roles[j]][j := roles[i]]
  }

  function Draw(swaps: seq<nat>, index: nat): nat { (if index < |swaps| then swaps[index] else 0) % (index + 1) }

  /** The places from `index` down are each swapped with a drawn one not above it. */
  function Shuffled(roles: seq<RoleId>, swaps: seq<nat>, index: int): (result: seq<RoleId>)
    requires index < |roles|
    ensures |result| == |roles|
    decreases index
  {
    if index <= 0 then roles else Shuffled(Swapped(roles, index, Draw(swaps, index)), swaps, index - 1)
  }

  method Shuffle(roles: seq<RoleId>, swaps: seq<nat>) returns (result: seq<RoleId>)
    ensures result == Shuffled(roles, swaps, |roles| - 1)
    ensures multiset(result) == multiset(roles) && |result| == |roles|
  {
    result := roles;
    var index := |result| - 1;
    while index > 0
      invariant -1 <= index < |result| == |roles| && multiset(result) == multiset(roles)
      invariant Shuffled(result, swaps, index) == Shuffled(roles, swaps, |roles| - 1)
    {
      var draw := if index < |swaps| then swaps[index] else 0;
      var other := draw % (index + 1);
      result := result[index := result[other]][other := result[index]];
      index := index - 1;
    }
  }

  lemma {:induction false} LaterDrawsDoNotMatter(roles: seq<RoleId>, swaps: seq<nat>, later: nat, index: int)
    requires index < |roles| && index < |swaps|
    ensures Shuffled(roles, swaps + [later], index) == Shuffled(roles, swaps, index)
    decreases index
  {
    if index > 0 { LaterDrawsDoNotMatter(Swapped(roles, index, Draw(swaps, index)), swaps, later, index - 1); }
  }

  /** The same roles, in the same order from this place up. */
  ghost predicate AgreeFrom(roles: seq<RoleId>, target: seq<RoleId>, place: int) {
    |roles| == |target| && multiset(roles) == multiset(target) && forall k :: 0 <= k < |roles| && place <= k ==> roles[k] == target[k]
  }

  lemma FindAmong(roles: seq<RoleId>, target: seq<RoleId>, index: nat) returns (other: nat)
    requires index < |roles| && AgreeFrom(roles, target, index + 1)
    ensures other <= index && roles[other] == target[index]
  {
    var a, b := roles[..index + 1], roles[index + 1..];
    var c, d := target[..index + 1], target[index + 1..];
    assert roles == a + b && target == c + d && b == d;
    assert multiset(a) == multiset(roles) - multiset(b) && multiset(c) == multiset(target) - multiset(d);
    assert c[index] in multiset(c);
    assert target[index] in multiset(a);
    other :| 0 <= other < |a| && a[other] == target[index];
  }

  lemma SwappedAgrees(roles: seq<RoleId>, target: seq<RoleId>, index: nat, other: nat)
    requires index < |roles| && AgreeFrom(roles, target, index + 1) && other <= index && roles[other] == target[index]
    ensures AgreeFrom(Swapped(roles, index, other), target, index) && |Swapped(roles, index, other)| == |roles|
  {
  }

  lemma DrawsAsGiven(earlier: seq<nat>, other: nat, index: nat)
    requires |earlier| == index && other <= index
    ensures Draw(earlier + [other], index) == other
  {
  }

  /** Every order of the roles can come out of the shuffle. */
  lemma {:induction false} EveryOrderCanBeDealt(roles: seq<RoleId>, target: seq<RoleId>, index: int) returns (swaps: seq<nat>)
    requires -1 <= index < |roles| && AgreeFrom(roles, target, index + 1)
    ensures |swaps| == index + 1 && Shuffled(roles, swaps, index) == target
    decreases index
  {
    hide Draw, Swapped, AgreeFrom;
    if index <= 0 {
      swaps := seq(index + 1, _ => 0);
      TheFirstIsLeft(roles, target, index);
    } else {
      var other := FindAmong(roles, target, index);
      SwappedAgrees(roles, target, index, other);
      var swapped := Swapped(roles, index, other);
      var earlier := EveryOrderCanBeDealt(swapped, target, index - 1);
      swaps := earlier + [other];
      DrawsAsGiven(earlier, other, index);
      LaterDrawsDoNotMatter(swapped, earlier, other, index - 1);
    }
  }

  lemma TheFirstIsLeft(roles: seq<RoleId>, target: seq<RoleId>, index: int)
    requires -1 <= index <= 0 && index < |roles| && AgreeFrom(roles, target, index + 1)
    ensures roles == target
  {
    if index == 0 { var other := FindAmong(roles, target, 0); }
  }

  lemma {:induction false} CountIsMultiplicity(roles: seq<RoleId>, role: RoleId)
    ensures Count(roles, role) == multiset(roles)[role]
    decreases |roles|
  {
    if roles != [] {
      CountIsMultiplicity(roles[1..], role);
      assert roles == [roles[0]] + roles[1..];
    }
  }

  /** A shuffled valid composition is valid. */
  lemma ShuffledIsValid(roles: seq<RoleId>, shuffled: seq<RoleId>, players: nat)
    requires multiset(roles) == multiset(shuffled) && |roles| == |shuffled| && IsValidComposition(roles, players)
    ensures IsValidComposition(shuffled, players)
  {
    hide Count, MinimumPlayers;
    forall role ensures Count(shuffled, role) == Count(roles, role) && (role in shuffled <==> role in roles) {
      CountIsMultiplicity(roles, role);
      CountIsMultiplicity(shuffled, role);
      assert role in shuffled <==> role in multiset(shuffled);
      assert role in roles <==> role in multiset(roles);
    }
  }

  /** The first morning. */
  function Started(s: GameState, deal: seq<RoleId>, belief: RoleId, now: int): GameState
    requires |deal| == |LobbyOf(s)|
  {
    ApplyPatches(s, SeatPatches(LobbyOf(s), deal, belief))
      .(status := Running, day := 1, phase := Some(Phase(1, Discussion, now, now + s.settings.discussionMs)))
  }

  /** Deals a valid composition to the lobby. A composition that cannot be dealt
      is an exception in the source; here it is the error `NoComposition`. */
  method StartGame(s: GameState, preset: Preset, now: int, dice: Dice) returns (result: DomainResult)
    requires WellFormed(s)
    requires DrunkMayBelieve(dice.belief) && (|LobbyOf(s)| >= MIN_PLAYERS ==> Drawable(|LobbyOf(s)|, dice.drawn))
    ensures !(s.status.Lobby? || s.status.Scheduled?) ==> result == Err(GameAlreadyStarted)
    ensures (s.status.Lobby? || s.status.Scheduled?) && |LobbyOf(s)| < MIN_PLAYERS ==> result == Err(MinPlayersNotReached)
    ensures (s.status.Lobby? || s.status.Scheduled?) && |LobbyOf(s)| >= MIN_PLAYERS ==>
              if preset.Cult? && |LobbyOf(s)| < 9 then result == Err(NoComposition)
              else
                && var roles := Composed(|LobbyOf(s)|, preset, dice.drawn, dice.pick);
                   roles.Some? && |roles.value| == |LobbyOf(s)|
                   && var deal := Shuffled(roles.value, dice.swaps, |roles.value| - 1);
                      && IsValidComposition(deal, |LobbyOf(s)|)
                      && result.Ok? && After(s, result.transition) == Started(s, deal, dice.belief, now)
  {
    hide IsValidComposition, WellFormed, Drawable, Shuffled, Composed, Started, After, SeatPatches, LobbyUpTo;
    if !s.status.Lobby? && !s.status.Scheduled? { return Err(GameAlreadyStarted); }
    var lobby := LobbyOf(s);
    if |lobby| < MIN_PLAYERS { return Err(MinPlayersNotReached); }
    var roles := ComposeBalancedGame(|lobby|, preset, dice.drawn, dice.pick);
    if roles.None? { return Err(NoComposition); }
    var deal := Shuffle(roles.value, dice.swaps);
    ShuffledIsValid(roles.value, deal, |lobby|);
    ValidLength(roles.value, |lobby|);
    var phase := Phase(1, Discussion, now, now + s.settings.discussionMs);
    result := Ok(Transition(NO_PATCH.(status := Some(Running), day := Some(1), phase := Some(phase)),
                            SeatPatches(lobby, deal, dice.belief), []));
    StartingLeadsTo(s, deal, dice.belief, now, phase);
  }

  lemma StartingLeadsTo(s: GameState, deal: seq<RoleId>, belief: RoleId, now: int, phase: Phase)
    requires |deal| == |LobbyOf(s)| && phase == Phase(1, Discussion, now, now + s.settings.discussionMs)
    ensures After(s, Transition(NO_PATCH.(status := Some(Running), day := Some(1), phase := Some(phase)), SeatPatches(LobbyOf(s), deal, belief), []))
         == Started(s, deal, belief, now)
  {
    hide SeatPatches, PatchedBy, LobbyUpTo;
  }

  lemma ValidLength(roles: seq<RoleId>, players: nat)
    requires IsValidComposition(roles, players)
    ensures |roles| == players
  {
  }

  // ---- Resolving a phase ----

  function Next(phase: Phase, kind: PhaseType, now: int, settings: Settings): Phase {
    Phase(phase.id + 1, kind, now, now + PhaseDuration(kind, settings))
  }

  /** The state a resolved phase leads to. */
  ghost function Expired(s: GameState, now: int, rolls: Rolls): GameState
    requires s.phase.Some?
  {
    match s.phase.value.kind
    case Discussion => s.(phase := Some(Next(s.phase.value, Voting, now, s.settings)))
    case Voting =>
      var dusk := DayVote.Dusk(s, DayVote.Selected(s));
      if dusk.status == Finished then dusk else dusk.(phase := Some(Next(s.phase.value, NightTime, now, s.settings)))
    case NightTime => Morning(s, Outcome(s, rolls), now)
  }

  method ResolveExpiredPhase(s: GameState, now: int, rolls: Rolls) returns (result: DomainResult)
    requires WellFormed(s)
    ensures s.phase.None? || s.status != Running ==> result == Err(GameNotStarted)
    ensures s.phase.Some? && s.status == Running ==> result.Ok? && After(s, result.transition) == Expired(s, now, rolls)
  {
    hide WellFormed, Outcome, Morning, DayVote.Dusk, DayVote.Selected;
    if s.status == Finished || s.phase.None? || s.status != Running { return Err(GameNotStarted); }
    var phase := s.phase.value;
    match phase.kind {
      case Discussion =>
        result := Ok(Transition(NO_PATCH.(phase := Some(Next(phase, Voting, now, s.settings))), [], []));
        NoPatches(s);
      case Voting =>
        result := DayVote.ResolveDayVote(s);
        var transition := result.transition;
        VoteStatus(s, transition);
        if transition.game.status == Some(Finished) { return; }
        result := Ok(transition.(game := transition.game.(phase := Some(Next(phase, NightTime, now, s.settings)))));
      case NightTime =>
        result := ResolveNight(s, now, rolls);
    }
  }

  lemma NoPatches(s: GameState)
    ensures ApplyPatches(s, []) == s
  {
    assert ApplyPatches(s, []).players == s.players;
  }

  lemma VoteStatus(s: GameState, tr: Transition)
    requires s.status == Running
    ensures After(s, tr).status == Finished <==> tr.game.status == Some(Finished)
  {
  }
}
