/** A night resolved: the transition it commits and the state it leads to
    (resolution/night/index.ts, events.ts). */
module NightResolution {
  import opened Wrappers
  import opened Sorting
  import opened Roles
  import opened GameState
  import opened Victory
  import opened Tally
  import opened NightIntents
  import opened NightStages
  import opened NightContext
  import opened NightPipeline

  // ---- The pack's ballot ----

  function Targets(intents: seq<Intent>): (targets: seq<UserId>)
  {
    if intents == [] then []
    else Targets(intents[..|intents| - 1]) + (if intents[|intents| - 1].choice.On? then [intents[|intents| - 1].choice.target] else [])
  }

  /** The target of strictly the most of the pack's votes. */
  ghost function WolfTarget(s: GameState): Option<UserId> { Plurality(Targets(FrozenIntents(s, WolfAttack))) }

  method ResolveWolfBallot(votes: seq<Intent>) returns (target: Option<UserId>)
    ensures target == Plurality(Targets(votes))
  {
    var tally := CountVotes(Targets(votes));
    target := UniqueWinner(tally, Targets(votes));
  }

  /** The pack hunts the living. */
  lemma WolfTargetIsAlive(s: GameState)
    ensures WolfTarget(s).Some? ==> IsAlive(s, WolfTarget(s).value)
  {
    hide IsAlive;
    var votes := FrozenIntents(s, WolfAttack);
    if WolfTarget(s).Some? {
      CountedIsPresent(Targets(votes), WolfTarget(s).value);
      TargetsComeFromIntents(votes, WolfTarget(s).value);
      var intent :| intent in votes && intent.choice.On? && intent.choice.target == WolfTarget(s).value;
      FrozenIntentIsItsActors(s, WolfAttack, intent);
      IntentIsOfItsActor(s, intent.actor, WolfAttack);
    }
  }

  lemma {:induction false} TargetsComeFromIntents(votes: seq<Intent>, target: UserId)
    requires target in Targets(votes)
    ensures exists intent :: intent in votes && intent.choice.On? && intent.choice.target == target
    decreases |votes|
  {
    var last := votes[|votes| - 1];
    if !(last.choice.On? && last.choice.target == target) { TargetsComeFromIntents(votes[..|votes| - 1], target); }
  }

  // ---- The lovers ----

  /** If one lover died tonight and the other is alive, the other dies too. */
  function LinkDeaths(s: GameState, deaths: map<UserId, DeathCause>): map<UserId, DeathCause> {
    var pair := LinkPair(s);
    if pair.None? then deaths
    else
      var (a, b) := pair.value;
      if a in deaths && b !in deaths && IsAlive(s, b) then deaths[b := LoverLink]
      else if b in deaths && a !in deaths && IsAlive(s, a) then deaths[a := LoverLink]
      else deaths
  }

  // ---- The patches, and what they do to one player ----

  function Become(p: Player, cause: ConversionCause): Player {
    if cause.CultTurn? then p.(role := Some(Cultist), faction := Some(CultFaction))
    else p.(role := Some(Werewolf), faction := Some(WolvesFaction))
  }

  function BecomeChanges(cause: ConversionCause): Changes {
    if cause.CultTurn? then NO_CHANGES.(role := Some(Cultist), faction := Some(CultFaction))
    else NO_CHANGES.(role := Some(Werewolf), faction := Some(WolvesFaction))
  }

  const ASCENDED: Changes := NO_CHANGES.(role := Some(AlphaWolf), faction := Some(WolvesFaction))

  /** A player after the night is committed: dead if they died, converted by
      their last conversion, the alpha if they ascended. */
  function Committed(n: Night, u: UserId, p: Player): Player {
    var q := if u in n.deaths then p.(status := Dead) else p;
    var c := if TurnsOf(n, u) != [] then Become(q, TurnsOf(n, u)[|TurnsOf(n, u)| - 1]) else q;
    if n.ascension == Some(u) then c.(role := Some(AlphaWolf), faction := Some(WolvesFaction)) else c
  }

  function TurnPatches(u: UserId, turns: seq<ConversionCause>): seq<PlayerPatch> {
    seq(|turns|, i requires 0 <= i < |turns| => PlayerPatch(u, BecomeChanges(turns[i])))
  }

  lemma {:induction false} TurnPatchesTurn(u: UserId, turns: seq<ConversionCause>, v: UserId, p: Player)
    ensures PatchedBy(v, p, TurnPatches(u, turns)) == if u == v && turns != [] then Become(p, turns[|turns| - 1]) else p
    decreases |turns|
  {
    if turns != [] {
      var rest := turns[1..];
      assert TurnPatches(u, turns) == [PlayerPatch(u, BecomeChanges(turns[0]))] + TurnPatches(u, rest);
      TurnPatchesTurn(u, rest, v, if u == v then Patched(p, BecomeChanges(turns[0])) else p);
    }
  }

  ghost predicate DeathsCommitted(n: Night, patches: seq<PlayerPatch>, left: set<UserId>) {
    forall u: UserId, p: Player {:trigger PatchedBy(u, p, patches)} ::
      PatchedBy(u, p, patches) == if u in n.deaths && u !in left then p.(status := Dead) else p
  }

  ghost predicate TurnsCommitted(n: Night, patches: seq<PlayerPatch>, left: set<UserId>) {
    forall u: UserId, p: Player {:trigger PatchedBy(u, p, patches)} ::
      PatchedBy(u, p, patches) == Committed(n.(conversions := n.conversions - left, ascension := None), u, p)
  }

  lemma NothingCommitted(n: Night)
    ensures DeathsCommitted(n, [], n.deaths.Keys)
  {
  }

  lemma OneMoreDeath(n: Night, patches: seq<PlayerPatch>, left: set<UserId>, v: UserId)
    requires DeathsCommitted(n, patches, left) && v in left && v in n.deaths
    ensures DeathsCommitted(n, patches + [PlayerPatch(v, NO_CHANGES.(status := Some(Dead)))], left - {v})
  {
    var last := [PlayerPatch(v, NO_CHANGES.(status := Some(Dead)))];
    forall u: UserId, p: Player
      ensures PatchedBy(u, p, patches + last) == if u in n.deaths && u !in left - {v} then p.(status := Dead) else p
    {
      PatchedByAppend(u, p, patches, last);
      OnePatch(u, PatchedBy(u, p, patches), last[0]);
    }
  }

  lemma DeathsThenTurns(n: Night, patches: seq<PlayerPatch>)
    requires DeathsCommitted(n, patches, {})
    ensures TurnsCommitted(n, patches, n.conversions.Keys)
  {
    assert n.conversions - n.conversions.Keys == map[];
  }

  lemma OneMoreTurned(n: Night, patches: seq<PlayerPatch>, left: set<UserId>, v: UserId)
    requires TurnsCommitted(n, patches, left) && v in left && v in n.conversions
    ensures TurnsCommitted(n, patches + TurnPatches(v, n.conversions[v]), left - {v})
  {
    hide Become;
    var last := TurnPatches(v, n.conversions[v]);
    var before := n.(conversions := n.conversions - left, ascension := None);
    var after := n.(conversions := n.conversions - (left - {v}), ascension := None);
    forall u: UserId, p: Player ensures PatchedBy(u, p, patches + last) == Committed(after, u, p) {
      PatchedByAppend(u, p, patches, last);
      assert PatchedBy(u, p, patches) == Committed(before, u, p);
      TurnPatchesTurn(v, n.conversions[v], u, PatchedBy(u, p, patches));
      assert TurnsOf(after, u) == if u == v then n.conversions[v] else TurnsOf(before, u);
    }
  }

  lemma AscensionCommitted(n: Night, patches: seq<PlayerPatch>, u: UserId, p: Player)
    requires TurnsCommitted(n, patches, {})
    ensures PatchedBy(u, p, if n.ascension.Some? then patches + [PlayerPatch(n.ascension.value, ASCENDED)] else patches)
         == Committed(n, u, p)
  {
    assert n.conversions - {} == n.conversions;
    assert PatchedBy(u, p, patches) == Committed(n.(ascension := None), u, p);
    if n.ascension.Some? {
      var last := PlayerPatch(n.ascension.value, ASCENDED);
      PatchedByAppend(u, p, patches, [last]);
      OnePatch(u, PatchedBy(u, p, patches), last);
    }
  }

  /** Deaths first, then every conversion, then the ascension. */
  method CommitNight(n: Night) returns (patches: seq<PlayerPatch>)
    ensures forall u: UserId, p: Player :: PatchedBy(u, p, patches) == Committed(n, u, p)
  {
    hide DeathsCommitted, TurnsCommitted, Committed, PatchedBy, TurnPatches;
    patches := [];
    NothingCommitted(n);
    var dead := n.deaths.Keys;
    while dead != {}
      invariant dead <= n.deaths.Keys && DeathsCommitted(n, patches, dead)
      decreases |dead|
    {
      var u: UserId :| u in dead;
      OneMoreDeath(n, patches, dead, u);
      patches := patches + [PlayerPatch(u, NO_CHANGES.(status := Some(Dead)))];
      dead := dead - {u};
    }
    DeathsThenTurns(n, patches);
    var turned := n.conversions.Keys;
    while turned != {}
      invariant turned <= n.conversions.Keys && TurnsCommitted(n, patches, turned)
      decreases |turned|
    {
      var u: UserId :| u in turned;
      OneMoreTurned(n, patches, turned, u);
      patches := patches + TurnPatches(u, n.conversions[u]);
      turned := turned - {u};
    }
    forall u: UserId, p: Player
      ensures PatchedBy(u, p, if n.ascension.Some? then patches + [PlayerPatch(n.ascension.value, ASCENDED)] else patches)
           == Committed(n, u, p)
    {
      AscensionCommitted(n, patches, u, p);
    }
    if n.ascension.Some? { patches := patches + [PlayerPatch(n.ascension.value, ASCENDED)]; }
  }

  // ---- Role states ----

  /** The link a real, still unlinked cupid forms tonight. */
  function NewLink(s: GameState): Option<(UserId, (UserId, UserId))> {
    var link := RealIntent(s, CupidLink);
    if link.Some? && link.value.choice.OnPair? && link.value.actor in s.players
       && s.players[link.value.actor].roleState == Linked(None)
    then Some((link.value.actor, (link.value.choice.first, link.value.choice.second))) else None
  }

  method FormLink(s: GameState) returns (patches: seq<PlayerPatch>)
    ensures forall u: UserId, p: Player :: PatchedBy(u, p, patches) ==
              if NewLink(s).Some? && u == NewLink(s).value.0 then p.(roleState := Linked(Some(NewLink(s).value.1))) else p
  {
    hide NewLink;
    patches := [];
    var link := NewLink(s);
    if link.Some? {
      patches := [PlayerPatch(link.value.0, NO_CHANGES.(roleState := Some(Linked(Some(link.value.1)))))];
      forall u: UserId, p: Player ensures PatchedBy(u, p, patches) == if u == link.value.0 then Patched(p, patches[0].changes) else p {
        OnePatch(u, p, patches[0]);
      }
    }
  }

  /** The priest remembers whom they protected, the guardian whom they bonded to. */
  function Remembering(s: GameState, u: UserId, p: Player): Player {
    var protect, bond := Acting(s, PriestProtect), Acting(s, GuardianBond);
    var q := if FindLiving(s, Priest) == Some(u)
             then p.(roleState := LastProtected(if protect.Some? then Some(protect.value.1) else None)) else p;
    if FindLiving(s, Guardian) == Some(u) && bond.Some? then q.(roleState := Protegee(Some(bond.value.1))) else q
  }

  method RoleStatePatches(s: GameState) returns (patches: seq<PlayerPatch>)
    ensures forall u: UserId, p: Player :: PatchedBy(u, p, patches) == Remembering(s, u, p)
  {
    hide Acting, FindLiving;
    patches := [];
    var priest, protect := FindLiving(s, Priest), Acting(s, PriestProtect);
    var guardian, bond := FindLiving(s, Guardian), Acting(s, GuardianBond);
    var remembered := if protect.Some? then Some(protect.value.1) else None;
    if priest.Some? {
      patches := patches + [PlayerPatch(priest.value, NO_CHANGES.(roleState := Some(LastProtected(remembered))))];
    }
    ghost var first := patches;
    if guardian.Some? && bond.Some? {
      patches := patches + [PlayerPatch(guardian.value, NO_CHANGES.(roleState := Some(Protegee(Some(bond.value.1)))))];
    }
    forall u: UserId, p: Player ensures PatchedBy(u, p, patches) == Remembering(s, u, p) {
      if priest.Some? { OnePatch(u, p, first[0]); }
      if guardian.Some? && bond.Some? {
        PatchedByAppend(u, p, first, [patches[|first|]]);
        OnePatch(u, PatchedBy(u, p, first), patches[|first|]);
      }
    }
  }

  // ---- The whole night ----

  /** Whether these conversions lead into a channel. */
  predicate LeadsInto(turns: seq<ConversionCause>, channel: Channel) {
    match channel
    case WolvesChannel => exists i :: 0 <= i < |turns| && !turns[i].CultTurn?
    case CultChannel => CultTurn in turns
    case _ => false
  }

  /** The channels the night's conversions and the ascension let a player into. */
  predicate Joins(n: Night, u: UserId, channel: Channel) {
    (n.ascension == Some(u) && channel == WolvesChannel) || LeadsInto(TurnsOf(n, u), channel)
  }

  function TurnJoins(u: UserId, turns: seq<ConversionCause>): (joins: seq<Join>)
    ensures forall v: UserId, channel :: Join(v, channel) in joins <==> u == v && LeadsInto(turns, channel)
  {
    (if LeadsInto(turns, CultChannel) then [Join(u, CultChannel)] else [])
    + (if LeadsInto(turns, WolvesChannel) then [Join(u, WolvesChannel)] else [])
  }

  /** One player after the night. */
  function NightPlayer(s: GameState, n: Night, u: UserId, p: Player): Player {
    var q := Committed(n, u, p);
    var linked := if NewLink(s).Some? && u == NewLink(s).value.0 then q.(roleState := Linked(Some(NewLink(s).value.1))) else q;
    Remembering(s, u, linked)
  }

  function DeathsTold(s: GameState, n: Night): Night { n.(deaths := LinkDeaths(s, n.deaths)) }

  /** Tonight's outcome: the house attacks, then the lovers. */
  ghost function Outcome(s: GameState, rolls: Rolls): Night {
    DeathsTold(s, HouseAttacks(Facts(s, WolfTarget(s), rolls)))
  }

  function Counted(s: GameState, n: Night): nat {
    if n.deaths != map[] then 0 else s.nightsWithoutElimination + 1
  }

  /** The state victory is judged on. */
  function Projected(s: GameState, n: Night): GameState {
    s.(players := map u | u in s.players :: NightPlayer(s, n, u, s.players[u]), nightsWithoutElimination := Counted(s, n))
  }

  /** The state the night leads to: the end of the game, or the next morning. */
  function Morning(s: GameState, n: Night, now: int): GameState
    requires s.phase.Some?
  {
    var projected := Projected(s, n);
    var winner := CheckVictory(projected);
    if winner.Some? then
      ApplyPatches(projected, FinishOffLosers(projected, winner.value)).(status := Finished, winner := winner)
    else
      projected.(day := s.day + 1,
                 phase := Some(Phase(s.phase.value.id + 1, Discussion, now, now + s.settings.discussionMs)))
  }

  lemma NightPatchesProject(s: GameState, n: Night, a: seq<PlayerPatch>, b: seq<PlayerPatch>, c: seq<PlayerPatch>, u: UserId, p: Player)
    requires PatchedBy(u, p, a) == Committed(n, u, p)
    requires PatchedBy(u, Committed(n, u, p), b)
          == if NewLink(s).Some? && u == NewLink(s).value.0 then Committed(n, u, p).(roleState := Linked(Some(NewLink(s).value.1))) else Committed(n, u, p)
    requires forall q: Player :: PatchedBy(u, q, c) == Remembering(s, u, q)
    ensures PatchedBy(u, p, a + b + c) == NightPlayer(s, n, u, p)
  {
    hide PatchedBy, Committed, Remembering, NewLink;
    PatchedByAppend(u, p, a, b);
    PatchedByAppend(u, p, a + b, c);
  }

  method NightPatches(s: GameState, n: Night) returns (patches: seq<PlayerPatch>)
    ensures forall u: UserId, p: Player :: PatchedBy(u, p, patches) == NightPlayer(s, n, u, p)
  {
    hide PatchedBy, Committed, Remembering, NewLink, NightPlayer;
    var deaths := CommitNight(n);
    var link := FormLink(s);
    var states := RoleStatePatches(s);
    patches := deaths + link + states;
    forall u: UserId, p: Player ensures PatchedBy(u, p, patches) == NightPlayer(s, n, u, p) {
      NightPatchesProject(s, n, deaths, link, states, u, p);
    }
  }

  method NightJoins(n: Night) returns (joins: seq<Join>)
    ensures forall u: UserId, channel :: Join(u, channel) in joins <==> Joins(n, u, channel)
  {
    hide LeadsInto;
    joins := if n.ascension.Some? then [Join(n.ascension.value, WolvesChannel)] else [];
    var left := n.conversions.Keys;
    while left != {}
      invariant left <= n.conversions.Keys
      invariant forall u: UserId, channel :: Join(u, channel) in joins <==>
                  (n.ascension == Some(u) && channel == WolvesChannel)
                  || (u in n.conversions && u !in left && LeadsInto(n.conversions[u], channel))
      decreases |left|
    {
      var u: UserId :| u in left;
      joins := joins + TurnJoins(u, n.conversions[u]);
      left := left - {u};
    }
    forall u: UserId, channel | u !in n.conversions ensures !LeadsInto(TurnsOf(n, u), channel) { NoTurnsLeadNowhere(channel); }
  }

  lemma NoTurnsLeadNowhere(channel: Channel)
    ensures !LeadsInto([], channel)
  {
  }

  lemma PatchesProject(s: GameState, n: Night, patches: seq<PlayerPatch>)
    requires forall u: UserId, p: Player :: PatchedBy(u, p, patches) == NightPlayer(s, n, u, p)
    ensures ApplyPatches(s, patches).(nightsWithoutElimination := Counted(s, n)) == Projected(s, n)
  {
    hide NightPlayer, PatchedBy;
    assert ApplyPatches(s, patches).players == Projected(s, n).players;
  }

  /** Resolves the night: freeze, ballot, houses, attacks, lovers, patches and
      the verdict. */
  method ResolveNight(s: GameState, now: int, rolls: Rolls) returns (result: DomainResult)
    requires WellFormed(s)
    ensures !(s.phase.Some? && s.phase.value.kind == NightTime) ==> result == Err(ActionNotAvailable)
    ensures s.phase.Some? && s.phase.value.kind == NightTime ==>
              && result.Ok? && After(s, result.transition) == Morning(s, Outcome(s, rolls), now)
              && forall u: UserId, channel :: Join(u, channel) in result.transition.joins <==> Joins(Outcome(s, rolls), u, channel)
  {
    hide WellFormed, FrozenIntents, HouseAttacks, Location, Joins, NightPlayer, PatchedBy, Freezes, CheckVictory, LinkDeaths, Plurality, Targets;
    if s.phase.None? || s.phase.value.kind != NightTime { return Err(ActionNotAvailable); }
    var frozen := FreezeNightIntents(s);
    BallotIsFrozen(s, frozen);
    var wolfTarget := ResolveWolfBallot(IntentsFor(frozen, WolfAttack));
    var locations := ResolveNightLocations(s, frozen, wolfTarget);
    var context := new NightContext(s, frozen, locations, wolfTarget, rolls);
    context.ResolveHouseAttacks();
    var n := DeathsTold(s, context.View());
    var patches := NightPatches(s, n);
    var joins := NightJoins(n);
    PatchesProject(s, n, patches);
    var projected := ApplyPatches(s, patches).(nightsWithoutElimination := Counted(s, n));
    var winner := DecideVictory(projected);
    if winner.Some? {
      var terminal := FinishOffLosers(projected, winner.value);
      ApplyPatchesAppend(s, patches, terminal);
      return Ok(Transition(NO_PATCH.(status := Some(Finished), winner := winner, nightsWithoutElimination := Some(Counted(s, n))),
                           patches + terminal, joins));
    }
    var next := Phase(s.phase.value.id + 1, Discussion, now, now + s.settings.discussionMs);
    return Ok(Transition(NO_PATCH.(day := Some(s.day + 1), phase := Some(next), nightsWithoutElimination := Some(Counted(s, n))),
                         patches, joins));
  }

  lemma BallotIsFrozen(s: GameState, frozen: Frozen)
    requires Freezes(s, frozen)
    ensures IntentsFor(frozen, WolfAttack) == FrozenIntents(s, WolfAttack)
  {
  }
}
