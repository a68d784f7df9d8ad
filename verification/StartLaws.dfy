/** What a game may be dealt and how it begins, in the words of the rules
    (packages/game-engine/src/composer, resolution/phase.ts, roles/). */
module StartLaws {
  import opened Wrappers
  import opened Roles
  import opened Slices
  import opened GameState
  import opened Composer
  import opened Phases

  /** The special roles dealt in one copy at most. */
  const SINGLE_ROLES: set<RoleId> := {
    Seer, Cursed, Harlot, Hunter, Princess, Veteran, SerialKiller, AlphaWolf, Drunk,
    Mayor, Cupid, Priest, Guardian, Cub, Sorcerer, Detective, CultLeader, LoneWolf}

  /** The roles that wait for a larger game, by its least size. */
  const FROM_TEN: set<RoleId> := {AlphaWolf, LoneWolf}
  const FROM_NINE: set<RoleId> := {CultLeader}
  const FROM_EIGHT: set<RoleId> := {Mason, Mayor, Cupid, Sorcerer}
  const FROM_SEVEN: set<RoleId> := {Hunter, Drunk, Priest, Guardian, Cub, Detective}

  predicate NoneOf(roles: seq<RoleId>, excluded: set<RoleId>) { forall role :: role in roles ==> role !in excluded }

  /** A deal is valid exactly when there is a role for everybody, the masons are a pair
      or absent and every other special role is single; no role comes before its time;
      the smallest games keep the seer and the princess, and the cursed, apart; a lone
      wolf comes with an alpha; and a quarter of the players, two at least, are plain
      villagers. */
  lemma WhatMayBeDealt(roles: seq<RoleId>, players: nat)
    ensures IsValidComposition(roles, players) <==>
            var n := multiset(roles);
            && |roles| == players
            && (n[Mason] == 0 || n[Mason] == 2) && (forall role :: role in SINGLE_ROLES ==> n[role] <= 1)
            && (players < 10 ==> NoneOf(roles, FROM_TEN)) && (players < 9 ==> NoneOf(roles, FROM_NINE))
            && (players < 8 ==> NoneOf(roles, FROM_EIGHT)) && (players < 7 ==> NoneOf(roles, FROM_SEVEN))
            && (players < 6 ==> Cursed !in roles)
            && (players == 5 || players == 6 ==> Seer !in roles || Princess !in roles)
            && (players == 7 ==> Cursed !in roles)
            && (LoneWolf in roles ==> AlphaWolf in roles)
            && n[Villager] >= 2 && 4 * n[Villager] >= players
  {
    hide Count, SINGLE_ROLES, MinimumPlayers, NoneOf;
    forall role ensures Count(roles, role) == multiset(roles)[role] { CountIsMultiplicity(roles, role); }
    CopiesAre(roles);
    TheirTime(roles, players);
  }

  lemma CopiesAre(roles: seq<RoleId>)
    ensures ValidCardinality(roles) <==>
            && (multiset(roles)[Mason] == 0 || multiset(roles)[Mason] == 2)
            && forall role :: role in SINGLE_ROLES ==> multiset(roles)[role] <= 1
  {
    hide Count;
    forall role ensures Count(roles, role) == multiset(roles)[role] { CountIsMultiplicity(roles, role); }
    assert forall role :: role in SINGLE_ROLES <==> Dealt(role) && MaximumCopies(role) == 1;
  }

  function TimeOf(role: RoleId): nat {
    if role in FROM_TEN then 10 else if role in FROM_NINE then 9 else if role in FROM_EIGHT then 8
    else if role in FROM_SEVEN then 7 else if role == Cursed then 6 else 0
  }

  lemma TheirTime(roles: seq<RoleId>, players: nat)
    ensures AvailableAt(roles, players) <==>
            && (players < 10 ==> NoneOf(roles, FROM_TEN)) && (players < 9 ==> NoneOf(roles, FROM_NINE))
            && (players < 8 ==> NoneOf(roles, FROM_EIGHT)) && (players < 7 ==> NoneOf(roles, FROM_SEVEN))
            && (players < 6 ==> Cursed !in roles)
  {
    forall role ensures MinimumPlayers(role) == TimeOf(role) {}
  }

  /** The pack starts with a quarter of the players, rounded up from three quarters,
      and one at least. */
  lemma ThePackStartsWith(players: nat)
    ensures var n := StartingWolfCount(players); n >= 1 && 4 * n + 3 > players && (n > 1 ==> 4 * n - 1 <= players)
  {
  }

  // ---- Every such deal is dealt ----

  /** A valid deal of the preset with so many special roles and the right pack. */
  ghost predicate Fitting(roles: seq<RoleId>, players: nat, preset: Preset, drawn: nat) {
    var n := multiset(roles);
    && IsValidComposition(roles, players)
    && (forall role :: role in roles ==> role in Pool(preset) || role in Guaranteed(preset) || role == Villager || role == Werewolf)
    && (forall role :: role in Guaranteed(preset) ==> role in roles)
    && n[Villager] + n[Werewolf] == players - (if preset.Cult? && drawn == 0 then 1 else drawn)
    && n[Werewolf] + n[AlphaWolf] + n[Cub] == (if players == 5 && SerialKiller in roles then 0 else StartingWolfCount(players))
  }

  /** The special roles of the deal, in the order the search picks them. */
  function SpecialsOf(roles: seq<RoleId>, preset: Preset): seq<RoleId> {
    Guaranteed(preset) + Picked(Pool(preset), 0, set role | role in roles && role !in Guaranteed(preset))
  }

  lemma SpecialsAre(roles: seq<RoleId>, players: nat, preset: Preset, drawn: nat)
    requires Fitting(roles, players, preset, drawn)
    ensures Distinct(SpecialsOf(roles, preset))
    ensures forall role :: role in SpecialsOf(roles, preset) <==> role in roles && Dealt(role)
  {
    hide IsValidComposition, Pool, Distinct;
    PoolIsDistinct(preset);
    var chosen := set role | role in roles && role !in Guaranteed(preset);
    PickedDistinct(Pool(preset), 0, chosen);
    assert Pool(preset)[0..] == Pool(preset);
    GuaranteedIsDistinct(preset);
    DistinctConcat(Guaranteed(preset), Picked(Pool(preset), 0, chosen));
  }

  lemma GuaranteedIsDistinct(preset: Preset)
    ensures Distinct(Guaranteed(preset)) && forall role :: role in Guaranteed(preset) ==> Dealt(role)
  {
  }

  /** With the second mason they are the deal without its villagers and werewolves. */
  lemma FinishedIs(roles: seq<RoleId>, players: nat, preset: Preset, drawn: nat)
    requires Fitting(roles, players, preset, drawn)
    ensures multiset(Finish(SpecialsOf(roles, preset))) == multiset(roles)[Villager := 0][Werewolf := 0]
  {
    hide IsValidComposition, Pool, SpecialsOf, Finish, Count, MaximumCopies;
    SpecialsAre(roles, players, preset, drawn);
    PoolIsDistinct(preset);
    GuaranteedIsDistinct(preset);
    var specials := SpecialsOf(roles, preset);
    forall role ensures multiset(Finish(specials))[role] == multiset(roles)[Villager := 0][Werewolf := 0][role] {
      CopiesIn(roles, players, role);
      CopiesFinished(specials, role);
    }
  }

  lemma CopiesIn(roles: seq<RoleId>, players: nat, role: RoleId)
    requires IsValidComposition(roles, players)
    ensures Dealt(role) ==> multiset(roles)[role] == if role !in roles then 0 else if role == Mason then 2 else 1
    ensures role !in roles ==> multiset(roles)[role] == 0
  {
    hide Count, AvailableAt, AllowedTogether;
    CountIsMultiplicity(roles, role);
    CountedIsIn(roles, role);
  }

  lemma CopiesFinished(specials: seq<RoleId>, role: RoleId)
    requires Distinct(specials)
    ensures multiset(Finish(specials))[role] == if role !in specials then 0 else if role == Mason then 2 else 1
  {
    hide Count;
    CountIsMultiplicity(specials, role);
    CountDistinct(specials, role);
    if Mason in specials { assert multiset(specials + [Mason]) == multiset(specials) + multiset{Mason}; }
  }

  /** So the search accepts them, and deals them the same roles around. */
  lemma SpecialsAreAccepted(roles: seq<RoleId>, players: nat, preset: Preset, drawn: nat)
    requires players >= 5 && Drawable(players, drawn) && Fitting(roles, players, preset, drawn)
    ensures var (q, candidate) := (SearchFor(players, preset, drawn), Finish(SpecialsOf(roles, preset)));
            && Fits(q) && Accepts(q, SpecialsOf(roles, preset))
            && WolfCountFor(players, candidate) + |candidate| <= players
            && multiset(Deal(players, candidate)) == multiset(roles)
  {
    hide IsValidComposition, Pool, SpecialsOf, Finish, Deal, WolfCountFor;
    SearchFits(players, preset, drawn);
    FinishedIs(roles, players, preset, drawn);
    var candidate := Finish(SpecialsOf(roles, preset));
    ValidLength(roles, players);
    SizeOfRest(roles, candidate);
    FinishedSlots(SpecialsOf(roles, preset));
    WolvesAre(roles, players, preset, drawn, candidate);
    DealtTheSame(roles, players, candidate);
    ShuffledIsValid(roles, Deal(players, candidate), players);
  }

  lemma SizeOfRest(roles: seq<RoleId>, rest: seq<RoleId>)
    requires multiset(rest) == multiset(roles)[Villager := 0][Werewolf := 0]
    ensures |rest| == |roles| - multiset(roles)[Villager] - multiset(roles)[Werewolf]
  {
    assert |multiset(rest)| == |rest| && |multiset(roles)| == |roles|;
  }

  lemma FinishedSlots(selected: seq<RoleId>)
    ensures Slots(selected) == |Finish(selected)|
  {
  }

  lemma WolvesAre(roles: seq<RoleId>, players: nat, preset: Preset, drawn: nat, candidate: seq<RoleId>)
    requires players >= 5 && Fitting(roles, players, preset, drawn) && multiset(candidate) == multiset(roles)[Villager := 0][Werewolf := 0]
    ensures WolfCountFor(players, candidate) == multiset(roles)[Werewolf]
  {
    hide IsValidComposition, Pool;
    assert forall role :: role != Villager && role != Werewolf ==> (role in candidate <==> role in multiset(candidate)) && (role in roles <==> role in multiset(roles));
    CopiesIn(roles, players, AlphaWolf);
    CopiesIn(roles, players, Cub);
  }

  lemma DealtTheSame(roles: seq<RoleId>, players: nat, candidate: seq<RoleId>)
    requires |roles| == players && multiset(candidate) == multiset(roles)[Villager := 0][Werewolf := 0]
    requires |candidate| == players - multiset(roles)[Villager] - multiset(roles)[Werewolf]
    requires WolfCountFor(players, candidate) == multiset(roles)[Werewolf]
    ensures WolfCountFor(players, candidate) + |candidate| <= players
    ensures multiset(Deal(players, candidate)) == multiset(roles) && |Deal(players, candidate)| == players
  {
    hide WolfCountFor, Count, Fill;
    forall role ensures multiset(Deal(players, candidate))[role] == multiset(roles)[role] {
      CountInDeal(players, candidate, role);
      CountIsMultiplicity(Deal(players, candidate), role);
      CountIsMultiplicity(candidate, role);
    }
  }

  /** Main result. Every valid deal of the preset, with the drawn number of special roles
      and the right pack, is one that a pick leads to. */
  lemma EverythingCanBeDealt(roles: seq<RoleId>, players: nat, preset: Preset, drawn: nat) returns (pick: nat)
    requires players >= 5 && Drawable(players, drawn) && Fitting(roles, players, preset, drawn)
    ensures Composed(players, preset, drawn, pick).Some? && multiset(Composed(players, preset, drawn, pick).value) == multiset(roles)
  {
    hide Fitting, Pool, Enumerate, Accepts, Deal, WolfCountFor, Drawable, Finish, Picked, Fits;
    SearchFits(players, preset, drawn);
    SpecialsAreAccepted(roles, players, preset, drawn);
    var q, candidate := SearchFor(players, preset, drawn), Finish(SpecialsOf(roles, preset));
    SearchIsExact(q, Guaranteed(preset), set role | role in roles && role !in Guaranteed(preset));
    var candidates := Enumerate(q, 0, Guaranteed(preset));
    assert candidate in candidates;
    pick :| pick < |candidates| && candidates[pick] == candidate;
    SmallRemainder(pick, |candidates|);
  }

  /** And nothing else is. */
  lemma NothingElseIsDealt(players: nat, preset: Preset, drawn: nat, pick: nat)
    requires players >= 5 && Drawable(players, drawn) && Composed(players, preset, drawn, pick).Some?
    ensures Fitting(Composed(players, preset, drawn, pick).value, players, preset, drawn)
  {
    hide Enumerate, Fits, IsValidComposition, Deal, Fresh, Pool, Drawable, WolfCountFor, Count;
    SearchFits(players, preset, drawn);
    var q := SearchFor(players, preset, drawn);
    var candidates := Enumerate(q, 0, Guaranteed(preset));
    var specials := candidates[pick % |candidates|];
    CandidateDeals(q, preset, specials);
    PoolIsDistinct(preset);
    PackIsStartingWolfCount(players, specials);
    SlotsAreFilled(players, specials);
    forall role | Dealt(role) ensures role in Deal(players, specials) <==> role in specials { InDeal(players, specials, role); }
    forall role ensures Count(Deal(players, specials), role) == multiset(Deal(players, specials))[role] {
      CountIsMultiplicity(Deal(players, specials), role);
    }
    forall role | role in Deal(players, specials) ensures Dealt(role) || role == Villager || role == Werewolf {
      OnlyPlainBesides(players, specials, role);
    }
  }

  lemma OnlyPlainBesides(players: nat, specials: seq<RoleId>, role: RoleId)
    requires WolfCountFor(players, specials) + |specials| <= players && role in Deal(players, specials)
    ensures role in specials || role == Villager || role == Werewolf
  {
    hide WolfCountFor, Deal;
    CountInDeal(players, specials, role);
    CountedIsIn(Deal(players, specials), role);
    CountedIsIn(specials, role);
  }

  lemma SmallRemainder(a: nat, b: nat)
    requires a < b
    ensures a % b == a
  {
  }

  // ---- The first morning ----

  predicate PlaysFor(role: RoleId, faction: FactionId) {
    match faction
    case WolvesFaction => role in {Werewolf, AlphaWolf, Cub, Sorcerer}
    case VeteranFaction => role == Veteran
    case SerialKillerFaction => role == SerialKiller
    case CultFaction => role in {CultLeader, Cultist}
    case LoneWolfFaction => role == LoneWolf
    case VillageFaction =>
      role !in {Werewolf, AlphaWolf, Cub, Sorcerer, Veteran, SerialKiller, CultLeader, Cultist, LoneWolf}
  }

  /** Everybody in the lobby, and nobody else, is seated: alive, with the role dealt to
      their place, playing for its faction, its powers unused; the drunk believes
      otherwise. */
  lemma EverybodyIsSeated(s: GameState, deal: seq<RoleId>, belief: RoleId, now: int, u: UserId)
    requires WellFormed(s) && |deal| == |LobbyOf(s)| && u in s.players
    ensures var t := Started(s, deal, belief, now);
            && t.players.Keys == s.players.Keys && t.status == Running && t.day == 1
            && t.phase == Some(Phase(1, Discussion, now, now + s.settings.discussionMs))
            && (s.players[u].status != InLobby ==> t.players[u] == s.players[u])
            && (s.players[u].status == InLobby <==> exists i :: 0 <= i < |LobbyOf(s)| && LobbyOf(s)[i] == u)
            && forall i :: 0 <= i < |LobbyOf(s)| && LobbyOf(s)[i] == u ==>
                 var p, q := s.players[u], t.players[u];
                 && q.status == Alive && q.role == Some(deal[i]) == q.originalRole
                 && q.faction.Some? && PlaysFor(deal[i], q.faction.value)
                 && BeginsWith(deal[i], belief, q.roleState)
                 && q == p.(status := q.status, role := q.role, originalRole := q.originalRole, faction := q.faction, roleState := q.roleState)
  {
    hide PatchedBy, SeatPatches, PlaysFor, StateDealt, StartingFaction, BeginsWith, LobbyUpTo, CreateState;
    LobbyIsDistinct(s, |s.roster|);
    SeatPatchesSeat(LobbyOf(s), deal, belief, u, s.players[u]);
    InRosterIs(s, u);
    forall i | 0 <= i < |LobbyOf(s)| && LobbyOf(s)[i] == u ensures PlaysFor(deal[i], StartingFaction(deal[i])) && BeginsWith(deal[i], belief, StateDealt(deal[i], belief)) {
      SeatIs(deal[i], belief);
    }
  }

  lemma InRosterIs(s: GameState, u: UserId)
    requires WellFormed(s) && u in s.players
    ensures u in s.roster
  {
  }

  predicate BeginsWith(role: RoleId, belief: RoleId, state: RoleState) {
    state == match role
             case Drunk => Believes(Some(belief))
             case Mayor => MayorState(false, None, None)
             case Cupid => Linked(None)
             case Priest => LastProtected(None)
             case Guardian => Protegee(None)
             case Princess => PrincessState(false)
             case _ => Blank
  }

  lemma SeatIs(role: RoleId, belief: RoleId)
    ensures PlaysFor(role, StartingFaction(role)) && BeginsWith(role, belief, StateDealt(role, belief))
  {
  }
}
