/** What happens to whom at night, told from who acts, where everybody sleeps and the
    dice (resolution/night/stages/). */
module NightLaws {
  import opened Wrappers
  import opened Roles
  import opened Slices
  import opened GameState
  import opened NightIntents
  import opened NightStages
  import opened NightPipeline
  import opened NightActors
  import opened Records
  import opened NightResolution
  import opened Victory
  import NightContext
  import NightOutcome

  predicate InThePack(s: GameState, u: UserId) { u in s.players && OfThePack(s.players[u]) }

  /** The attacked hunter is at the door, and the roll is theirs. */
  predicate HunterRepels(f: Facts, house: UserId, roll: bool) {
    IsAlive(f.s, house) && f.s.players[house].role == Some(Hunter) && roll
  }

  predicate PackIsRepelled(f: Facts) { f.wolfTarget.Some? && HunterRepels(f, f.wolfTarget.value, f.rolls.hunterWolves) }

  predicate KillerIsRepelled(f: Facts) {
    Acting(f.s, SerialKillerVisit).Some? && HunterRepels(f, Acting(f.s, SerialKillerVisit).value.1, f.rolls.hunterKiller)
  }

  // ---- The hunter ----

  /** An attack is beaten off exactly when it is at the house of a living hunter whose
      roll succeeds; that costs a life of the pack, if one is left, or the killer's. */
  lemma TheHunterStrikesBack(f: Facts)
    requires WellFormed(f.s)
    ensures var n := HunterStage(f, PlanAttacks(f, DUSK));
            && (ByWolves in n.repelled <==> PackIsRepelled(f))
            && (BySerialKiller in n.repelled <==> KillerIsRepelled(f))
            && (PackIsRepelled(f) && (exists u :: IsAlive(f.s, u) && InThePack(f.s, u)) ==>
                  exists u :: u in n.deaths && IsAlive(f.s, u) && InThePack(f.s, u))
            && (KillerIsRepelled(f) ==> Acting(f.s, SerialKillerVisit).value.0 in n.deaths)
            && n.hits == map[] && n.search.None? && n.ascension.None? && n.conversions == map[]
            && n.attacks == PlanAttacks(f, DUSK).attacks
  {
    hide Acting, Pack, RetaliateAll;
    NoAttack(f, PlanAttacks(f, DUSK));
    PlannedAttacks(f);
    var p := PlanAttacks(f, DUSK);
    var visit := Acting(f.s, SerialKillerVisit);
    if f.wolfTarget.Some? && visit.Some? {
      var first, second := Attack(ByWolves, f.wolfTarget.value), Attack(BySerialKiller, visit.value.1);
      TwoAttacks(f, p, first, second);
    } else if f.wolfTarget.Some? {
      OneAttack(f, p, Attack(ByWolves, f.wolfTarget.value));
    } else if visit.Some? {
      OneAttack(f, p, Attack(BySerialKiller, visit.value.1));
    }
    if u :| IsAlive(f.s, u) && InThePack(f.s, u) { InPackOf(f, None, u); }
    if Pack(f, None) != [] { PickLives(f, None, f.rolls.hunterVictim); }
  }

  lemma InPackOf(f: Facts, house: Option<UserId>, u: UserId)
    requires WellFormed(f.s) && IsAlive(f.s, u) && InThePack(f.s, u) && (house.Some? ==> House(f, u) == house.value)
    ensures u in Pack(f, house)
  {
    hide House;
    var i :| 0 <= i < |f.s.roster| && f.s.roster[i] == u;
    InPackFrom(f, house, 0, i);
  }

  lemma {:induction false} InPackFrom(f: Facts, house: Option<UserId>, from: nat, i: nat)
    requires from <= i < |f.s.roster|
    requires IsAlive(f.s, f.s.roster[i]) && IsPackMember(f.s, f.s.roster[i]) && (house.Some? ==> House(f, f.s.roster[i]) == house.value)
    ensures f.s.roster[i] in PackFrom(f, house, from)
    decreases i - from
  {
    hide House, IsAlive, IsPackMember;
    if from < i { InPackFrom(f, house, from + 1, i); }
  }

  lemma NoAttack(f: Facts, n: Night)
    ensures RetaliateAll(f, n, []) == n
  {
  }

  lemma OneAttack(f: Facts, n: Night, attack: Attack)
    ensures RetaliateAll(f, n, [attack]) == Retaliate(f, n, attack)
  {
    hide Retaliate;
    assert [attack][..0] == [];
  }

  lemma TwoAttacks(f: Facts, n: Night, first: Attack, second: Attack)
    ensures RetaliateAll(f, n, [first, second]) == Retaliate(f, Retaliate(f, n, first), second)
  {
    hide Retaliate;
    assert [first, second][..1] == [first];
    OneAttack(f, n, first);
  }

  // ---- The clash and the duel ----

  /** A killer who finds the pack in the visited house pays with their life or takes
      one of the members found there. */
  lemma TheKillerClashes(f: Facts, n: Night, u: UserId)
    requires WellFormed(f.s) && Acting(f.s, SerialKillerVisit).Some?
    requires IsAlive(f.s, u) && InThePack(f.s, u) && House(f, u) == Acting(f.s, SerialKillerVisit).value.1
    ensures var (killer, house) := Acting(f.s, SerialKillerVisit).value;
            if f.rolls.clash
            then exists v :: v in ClashStage(f, n).deaths && IsAlive(f.s, v) && InThePack(f.s, v) && House(f, v) == house
            else killer in ClashStage(f, n).deaths
  {
    hide Acting, House;
    var house := Acting(f.s, SerialKillerVisit).value.1;
    InPackOf(f, Some(house), u);
    PickFromHouse(f, house, f.rolls.clashVictim);
  }

  lemma PickFromHouse(f: Facts, house: UserId, roll: nat)
    requires Pack(f, Some(house)) != []
    ensures var v := Pick(Pack(f, Some(house)), roll); IsAlive(f.s, v) && InThePack(f.s, v) && House(f, v) == house
  {
    hide House;
  }

  /** The one living holder of a role is whom a search for it finds. */
  lemma FindsTheHolder(s: GameState, role: RoleId, u: UserId)
    requires WellFormed(s) && SingleHolders(s) && SingleCopy(role) && IsAlive(s, u) && Holds(s, u, role)
    ensures FindLiving(s, role) == Some(u)
  {
    hide SingleCopy;
    var i :| 0 <= i < |s.roster| && s.roster[i] == u;
  }

  /** The lone wolf fights the alpha exactly when both are still alive and the alpha
      spends the night in the searched house; the roll decides who falls, and a
      winning lone wolf takes the alpha's place. */
  lemma TheDuel(f: Facts, n: Night, wolf: UserId, house: UserId, alpha: UserId)
    requires WellFormed(f.s) && SingleHolders(f.s) && Acting(f.s, LoneWolfSearch) == Some((wolf, house))
    requires IsAlive(f.s, alpha) && f.s.players[alpha].role == Some(AlphaWolf) && n.ascension.None?
    ensures var found := House(f, alpha) == house && alpha !in n.deaths && wolf !in n.deaths;
            DuelStage(f, n) == n.(search := Some(Search(wolf, house, found)),
                                  deaths := if !found then n.deaths
                                            else n.deaths[(if f.rolls.duel then alpha else wolf) := LoneWolfClash],
                                  ascension := if found && f.rolls.duel then Some(wolf) else None)
  {
    hide Acting, House, SingleHolders;
    FindsTheHolder(f.s, AlphaWolf, alpha);
  }

  // ---- The hits ----

  predicate FightsTheAlpha(f: Facts, u: UserId) {
    Clashes(f).search.Some? && Clashes(f).search.value.found && Clashes(f).search.value.player == u
  }

  /** The pack's attack lands on this player: in the house it hunts in, not of the pack,
      not a killer out hunting, not the one who fights the alpha there. */
  predicate PackHits(f: Facts, u: UserId) {
    && IsAlive(f.s, u) && !InThePack(f.s, u) && f.wolfTarget == Some(House(f, u)) && !PackIsRepelled(f)
    && !(f.s.players[u].role == Some(SerialKiller) && House(f, u) != u) && !FightsTheAlpha(f, u)
  }

  /** The killer's attack lands on this player: in the visited house, not of the pack,
      not the killer. */
  predicate KillerHits(f: Facts, u: UserId) {
    && IsAlive(f.s, u) && !InThePack(f.s, u) && !KillerIsRepelled(f)
    && Acting(f.s, SerialKillerVisit).Some?
    && House(f, u) == Acting(f.s, SerialKillerVisit).value.1 && u != Acting(f.s, SerialKillerVisit).value.0
  }

  lemma AfterTheClashes(f: Facts)
    requires WellFormed(f.s)
    ensures var c := Clashes(f);
            && c.attacks == PlanAttacks(f, DUSK).attacks && c.hits == map[] && c.conversions == map[]
            && (ByWolves in c.repelled <==> PackIsRepelled(f)) && (BySerialKiller in c.repelled <==> KillerIsRepelled(f))
            && HunterStage(f, PlanAttacks(f, DUSK)).deaths.Keys <= c.deaths.Keys
  {
    hide Acting, HunterStage, FindLiving, House, Pack, PackIsRepelled, KillerIsRepelled, WellFormed;
    TheHunterStrikesBack(f);
  }

  /** Who is hit, and by whom. */
  lemma WhoIsHit(f: Facts, u: UserId)
    requires WellFormed(f.s)
    ensures var hits := HitStage(f, Clashes(f)).hits;
            && (u in hits <==> PackHits(f, u) || KillerHits(f, u))
            && (u in hits ==> (ByWolves in hits[u] <==> PackHits(f, u)) && (BySerialKiller in hits[u] <==> KillerHits(f, u)))
  {
    hide Acting, Clashes, House, WellFormed, PackHits, KillerHits, Struck, PlanAttacks;
    AfterTheClashes(f);
    WhoStrikes(f, u);
    if PackHits(f, u) || KillerHits(f, u) { TheHitLive(f, u); }
  }

  lemma WhoStrikes(f: Facts, u: UserId)
    requires WellFormed(f.s)
    ensures var attackers := AttackersOf(f, Clashes(f), Clashes(f).attacks, u);
            && (ByWolves in attackers <==> PackHits(f, u)) && (BySerialKiller in attackers <==> KillerHits(f, u))
            && (attackers != {} <==> PackHits(f, u) || KillerHits(f, u))
  {
    hide Acting, Clashes, House, WellFormed, PackHits, KillerHits, Struck, AttackersOf, PlanAttacks;
    AfterTheClashes(f);
    StruckIs(f, u);
    PlannedAttacks(f);
    var c, visit := Clashes(f), Acting(f.s, SerialKillerVisit);
    if f.wolfTarget.Some? && visit.Some? {
      TwoStrikers(f, c, Attack(ByWolves, f.wolfTarget.value), Attack(BySerialKiller, visit.value.1), u);
    } else if f.wolfTarget.Some? {
      OneStriker(f, c, Attack(ByWolves, f.wolfTarget.value), u);
    } else if visit.Some? {
      OneStriker(f, c, Attack(BySerialKiller, visit.value.1), u);
    } else {
      NobodyStrikes(f, c, u);
    }
  }

  lemma PlannedAttacks(f: Facts)
    ensures var visit := Acting(f.s, SerialKillerVisit);
            PlanAttacks(f, DUSK).attacks ==
            if f.wolfTarget.Some? && visit.Some? then [Attack(ByWolves, f.wolfTarget.value), Attack(BySerialKiller, visit.value.1)]
            else if f.wolfTarget.Some? then [Attack(ByWolves, f.wolfTarget.value)]
            else if visit.Some? then [Attack(BySerialKiller, visit.value.1)]
            else []
  {
    hide Acting;
  }

  lemma OneStriker(f: Facts, n: Night, a: Attack, u: UserId)
    ensures AttackersOf(f, n, [a], u) == if Struck(f, n, a, u) then {a.attacker} else {}
  {
    hide Struck, AttackersOf;
    NobodyStrikes(f, n, u);
    OneMoreStriker(f, n, [], a, u);
    assert [] + [a] == [a];
  }

  lemma TwoStrikers(f: Facts, n: Night, a: Attack, b: Attack, u: UserId)
    ensures AttackersOf(f, n, [a, b], u) == (if Struck(f, n, a, u) then {a.attacker} else {}) + if Struck(f, n, b, u) then {b.attacker} else {}
  {
    hide Struck, AttackersOf;
    OneStriker(f, n, a, u);
    OneMoreStriker(f, n, [a], b, u);
    assert [a] + [b] == [a, b];
  }

  lemma NobodyStrikes(f: Facts, n: Night, u: UserId)
    ensures AttackersOf(f, n, [], u) == {}
  {
  }

  lemma OneMoreStriker(f: Facts, n: Night, attacks: seq<Attack>, a: Attack, u: UserId)
    ensures AttackersOf(f, n, attacks + [a], u) == AttackersOf(f, n, attacks, u) + if Struck(f, n, a, u) then {a.attacker} else {}
  {
    hide Struck;
    var all := attacks + [a];
    forall x ensures x in AttackersOf(f, n, all, u) <==> x in AttackersOf(f, n, attacks, u) + if Struck(f, n, a, u) then {a.attacker} else {} {
      if x in AttackersOf(f, n, attacks, u) {
        var k :| 0 <= k < |attacks| && Struck(f, n, attacks[k], u) && attacks[k].attacker == x;
        assert all[k] == attacks[k];
      }
      if Struck(f, n, a, u) { assert all[|attacks|] == a; }
    }
  }

  lemma TheHitLive(f: Facts, u: UserId)
    requires PackHits(f, u) || KillerHits(f, u)
    ensures u in Living(f.s)
  {
    hide Acting, Clashes, House, PackIsRepelled, KillerIsRepelled;
  }

  lemma StruckIs(f: Facts, u: UserId)
    requires WellFormed(f.s)
    ensures f.wolfTarget.Some? ==> (Struck(f, Clashes(f), Attack(ByWolves, f.wolfTarget.value), u) <==> PackHits(f, u))
    ensures f.wolfTarget.None? ==> !PackHits(f, u)
    ensures var visit := Acting(f.s, SerialKillerVisit);
            && (visit.Some? ==> (Struck(f, Clashes(f), Attack(BySerialKiller, visit.value.1), u) <==> KillerHits(f, u)))
            && (visit.None? ==> !KillerHits(f, u))
  {
    hide Acting, Clashes, House, PackIsRepelled, KillerIsRepelled, WellFormed;
    AfterTheClashes(f);
  }

  // ---- The shield and the guardian ----

  lemma FindsSomebody(s: GameState, role: RoleId)
    requires WellFormed(s)
    ensures FindLiving(s, role).Some? <==> exists u :: IsAlive(s, u) && s.players[u].role == Some(role)
  {
    if u :| IsAlive(s, u) && s.players[u].role == Some(role) {
      var i :| 0 <= i < |s.roster| && s.roster[i] == u;
    }
  }

  /** The shielded player is the one the priest protects. */
  lemma TheShield(f: Facts)
    requires WellFormed(f.s)
    ensures var protect := Acting(f.s, PriestProtect);
            HitsLeft(f).protectedId == HouseAttacks(f).protectedId == if protect.Some? then Some(protect.value.1) else None
  {
    hide Acting, Clashes, HitStage, FindLiving, FindLivingBut, WellFormed, Ward, House, FateOf, Falls, Turns, CultImmune;
    FindsSomebody(f.s, Priest);
    if Acting(f.s, PriestProtect).Some? { ActingIs(f.s, PriestProtect); }
  }

  /** The guardian's ward is the player they are bonded to, on the first night the one
      they bond to; without a living guardian nobody is anybody's ward. */
  lemma TheWard(s: GameState, guardian: UserId)
    requires WellFormed(s) && SingleHolders(s)
    ensures IsAlive(s, guardian) && s.players[guardian].role == Some(Guardian) ==>
              var bonded, bond := s.players[guardian].roleState, Acting(s, GuardianBond);
              Ward(s) == if bonded.Protegee? && bonded.protegee.Some? then bonded.protegee
                         else if bond.Some? then Some(bond.value.1) else None
    ensures (forall u :: IsAlive(s, u) ==> s.players[u].role != Some(Guardian)) ==> Ward(s).None?
  {
    hide Acting, FindLiving, SingleHolders, WellFormed;
    FindsSomebody(s, Guardian);
    if IsAlive(s, guardian) && s.players[guardian].role == Some(Guardian) { FindsTheHolder(s, Guardian, guardian); }
  }

  /** A hit is left exactly when it lands on somebody who is neither shielded nor the ward. */
  lemma WhoseHitsAreLeft(f: Facts, u: UserId)
    requires WellFormed(f.s)
    ensures var n := HitsLeft(f);
            && (u in n.hits <==> (PackHits(f, u) || KillerHits(f, u)) && HouseAttacks(f).protectedId != Some(u) && Ward(f.s) != Some(u))
            && (u in n.hits ==> (ByWolves in n.hits[u] <==> PackHits(f, u)) && (BySerialKiller in n.hits[u] <==> KillerHits(f, u)))
  {
    hide Clashes, HitStage, Ward, FindLiving, PackHits, KillerHits, WellFormed, HouseAttacks, Acting;
    WhoIsHit(f, u);
    TheShield(f);
    FindsSomebody(f.s, Priest);
    if Acting(f.s, PriestProtect).Some? { ActingIs(f.s, PriestProtect); }
  }

  /** For a ward who would be hit, and is not shielded, the guardian dies. */
  lemma TheGuardianDies(f: Facts, guardian: UserId, ward: UserId)
    requires WellFormed(f.s) && SingleHolders(f.s)
    requires IsAlive(f.s, guardian) && f.s.players[guardian].role == Some(Guardian) && Ward(f.s) == Some(ward)
    requires (PackHits(f, ward) || KillerHits(f, ward)) && HouseAttacks(f).protectedId != Some(ward)
    ensures guardian in HouseAttacks(f).deaths
  {
    hide Clashes, HitStage, Ward, FindLiving, PackHits, KillerHits, WellFormed, HouseAttacks, Acting, SingleHolders;
    WhoIsHit(f, ward);
    TheShield(f);
    FindsTheHolder(f.s, Guardian, guardian);
    assert guardian in HitsLeft(f).deaths;
    DeathsStay(f);
  }

  /** Nobody comes back to life in a later stage. */
  lemma DeathsStay(f: Facts)
    ensures HitsLeft(f).deaths.Keys <= ConversionStage(f, HitsLeft(f)).deaths.Keys <= HouseAttacks(f).deaths.Keys
    ensures Clashes(f).deaths.Keys <= HouseAttacks(f).deaths.Keys && HouseAttacks(f).ascension == Clashes(f).ascension
  {
    hide HitStage, ShieldStage, SubstitutionStage, ConversionStage, ExposureStage, AscensionStage, Clashes;
    var c := Clashes(f);
    NightOutcome.LaterStagesKeepDeaths(f, c);
    NightOutcome.LaterStagesKeepDeaths(f, HitStage(f, c));
    NightOutcome.LaterStagesKeepDeaths(f, ShieldStage(f, HitStage(f, c)));
    NightOutcome.LaterStagesKeepDeaths(f, HitsLeft(f));
    NightOutcome.LaterStagesKeepDeaths(f, ConversionStage(f, HitsLeft(f)));
    NightOutcome.LaterStagesKeepDeaths(f, ExposureStage(f, ConversionStage(f, HitsLeft(f))));
  }

  // ---- What becomes of the hit ----

  /** The pack's own target, of the village but not the seer, may be turned while an
      alpha lives, if the roll is the alpha's. */
  ghost predicate AlphaTurns(f: Facts, u: UserId) {
    && f.wolfTarget == Some(u) && u in f.s.players && f.s.players[u].faction == Some(VillageFaction)
    && f.s.players[u].role != Some(Seer) && f.rolls.alpha
    && exists alpha :: IsAlive(f.s, alpha) && f.s.players[alpha].role == Some(AlphaWolf)
  }

  /** Whoever is hit, not shielded and nobody's ward, dies or is turned: the cursed and
      the alpha's choice are turned by a hit of the pack alone; everybody else dies, a
      harlot away from home of exposure, the rest of their attackers. */
  lemma TheirFate(f: Facts, u: UserId)
    requires WellFormed(f.s) && (PackHits(f, u) || KillerHits(f, u))
    requires HouseAttacks(f).protectedId != Some(u) && Ward(f.s) != Some(u)
    ensures var n, byPackAlone := HouseAttacks(f), PackHits(f, u) && !KillerHits(f, u);
            && u in f.s.players && (u in n.deaths || CursedTurn in TurnsOf(n, u) || AlphaTurn in TurnsOf(n, u))
            && (u !in HitsLeft(f).deaths ==>
                  if f.s.players[u].role == Some(Cursed) && byPackAlone then CursedTurn in TurnsOf(n, u)
                  else if AlphaTurns(f, u) && byPackAlone then AlphaTurn in TurnsOf(n, u)
                  else u in n.deaths && n.deaths[u] == if f.s.players[u].role == Some(Harlot) && House(f, u) != u then HarlotExposure
                                                       else if KillerHits(f, u) then SerialKillerDeath else WolfAttackDeath)
  {
    hide HitsLeft, HouseAttacks, PackHits, KillerHits, WellFormed, Ward, ConversionStage, FateOf, Turns, Falls, AlphaTurns;
    WhoseHitsAreLeft(f, u);
    TheHitLive(f, u);
    DeathsStay(f);
    if u !in HitsLeft(f).deaths {
      FateIs(f, u);
      FateStays(f, u);
    }
  }

  lemma FateIs(f: Facts, u: UserId)
    requires WellFormed(f.s) && u in HitsLeft(f).hits && u in f.s.players
    ensures FateOf(f, HitsLeft(f), u) ==
            if f.s.players[u].role == Some(Cursed) && PackHits(f, u) && !KillerHits(f, u) then Turned(CursedTurn)
            else if AlphaTurns(f, u) && PackHits(f, u) && !KillerHits(f, u) then Turned(AlphaTurn)
            else Dies(if f.s.players[u].role == Some(Harlot) && House(f, u) != u then HarlotExposure
                      else if KillerHits(f, u) then SerialKillerDeath else WolfAttackDeath)
  {
    hide HitsLeft, HouseAttacks, PackHits, KillerHits, WellFormed, Ward, FindLiving, House;
    WhoseHitsAreLeft(f, u);
    FindsSomebody(f.s, AlphaWolf);
  }

  /** A fate decided stays decided. */
  lemma FateStays(f: Facts, u: UserId)
    requires u in HitsLeft(f).hits && u in f.s.players && u !in HitsLeft(f).deaths
    ensures var fate, n := FateOf(f, HitsLeft(f), u), HouseAttacks(f);
            if fate.Turned? then fate.turn in TurnsOf(n, u) else u in n.deaths && n.deaths[u] == fate.cause
  {
    hide HitsLeft, FateOf, FindLivingBut, Acting, House, CultImmune;
  }

  /** The pack kills: a living player outside the pack at home in the house it hunts in,
      no hunter, no lone wolf, neither shielded nor a ward, dies or is turned. */
  lemma ThePackStrikes(f: Facts, u: UserId)
    requires WellFormed(f.s) && f.wolfTarget == Some(u)
    requires IsAlive(f.s, u) && !InThePack(f.s, u) && House(f, u) == u
    requires f.s.players[u].role != Some(Hunter) && f.s.players[u].role != Some(LoneWolf)
    requires HouseAttacks(f).protectedId != Some(u) && Ward(f.s) != Some(u)
    ensures u in HouseAttacks(f).deaths || TurnsOf(HouseAttacks(f), u) != []
  {
    hide HouseAttacks, House, WellFormed, Ward, Clashes, KillerHits;
    OnlyTheLoneWolfFights(f);
    TheirFate(f, u);
  }

  lemma OnlyTheLoneWolfFights(f: Facts)
    ensures forall u :: FightsTheAlpha(f, u) ==> IsAlive(f.s, u) && Holds(f.s, u, LoneWolf)
  {
    hide Acting, HunterStage, ClashStage, FindLiving, House, IsAlive, Holds;
    NobodySearchesYet(f);
    if Acting(f.s, LoneWolfSearch).Some? { ActingIs(f.s, LoneWolfSearch); }
  }

  lemma NobodySearchesYet(f: Facts)
    ensures ClashStage(f, HunterStage(f, PlanAttacks(f, DUSK))).search.None?
  {
    hide Acting, Pack, RetaliateAll;
    var n := PlanAttacks(f, DUSK);
    NightContext.RetaliationHitsNobody(f, n, n.attacks);
  }

  /** The killer kills: a living player outside the pack in the house the killer visits,
      no hunter there, neither shielded nor a ward, dies, whatever the
      pack does there. */
  lemma TheKillerStrikes(f: Facts, u: UserId)
    requires WellFormed(f.s) && Acting(f.s, SerialKillerVisit).Some?
    requires var (killer, house) := Acting(f.s, SerialKillerVisit).value;
             && IsAlive(f.s, u) && !InThePack(f.s, u) && u != killer && House(f, u) == house
             && !(IsAlive(f.s, house) && f.s.players[house].role == Some(Hunter))
    requires HouseAttacks(f).protectedId != Some(u) && Ward(f.s) != Some(u)
    ensures u in HouseAttacks(f).deaths
  {
    hide HouseAttacks, House, WellFormed, Ward, Clashes, PackHits, Acting, AlphaTurns, HitsLeft;
    TheirFate(f, u);
    DeathsStay(f);
  }

  // ---- The cult, the harlot and the lone wolf ----

  lemma LaterStagesKeepTurns(f: Facts, n: Night)
    ensures ExposureStage(f, n).conversions == n.conversions && ExposureStage(f, n).protectedId == n.protectedId
    ensures AscensionStage(f, n).deaths == n.deaths && AscensionStage(f, n).ascension == n.ascension
    ensures forall u, cause :: cause != AlphaDead ==> (cause in TurnsOf(AscensionStage(f, n), u) <==> cause in TurnsOf(n, u))
  {
    hide Acting, House, FindLivingBut;
  }

  /** The cult gains exactly whom its leader visits: unless they have died by then, are
      shielded, are of the wolves, or are the killer or the hunter. */
  lemma TheCultConverts(f: Facts, u: UserId)
    ensures CultTurn in TurnsOf(HouseAttacks(f), u) <==>
            && Acting(f.s, CultConvert).Some? && Acting(f.s, CultConvert).value.1 == u
            && u !in ConversionStage(f, HitsLeft(f)).deaths && HitsLeft(f).protectedId != Some(u)
            && u in f.s.players && f.s.players[u].faction != Some(WolvesFaction)
            && f.s.players[u].role != Some(SerialKiller) && f.s.players[u].role != Some(Hunter)
  {
    hide Acting, HitsLeft, ExposureStage, AscensionStage, FateOf;
    var n := ConversionStage(f, HitsLeft(f));
    TurnIsCursedOrAlpha(f, u);
    LaterStagesKeepTurns(f, n);
    LaterStagesKeepTurns(f, ExposureStage(f, n));
    if Acting(f.s, CultConvert).Some? { ActingIs(f.s, CultConvert); }
  }

  /** A harlot who visits a wolf at home does not live to see the morning. */
  lemma TheHarlotIsExposed(f: Facts, harlot: UserId, owner: UserId)
    requires Acting(f.s, HarlotVisit) == Some((harlot, owner))
    requires IsAlive(f.s, owner) && f.s.players[owner].faction == Some(WolvesFaction) && House(f, owner) == owner
    ensures harlot in HouseAttacks(f).deaths
  {
    hide Acting, ConversionStage, House, FindLivingBut, HitsLeft;
  }

  /** The lone wolf joins the pack exactly when they live, have not taken the alpha's
      place, and no alpha lives. */
  lemma TheLoneWolfJoins(f: Facts, u: UserId)
    requires WellFormed(f.s) && SingleHolders(f.s)
    ensures var n := HouseAttacks(f);
            AlphaDead in TurnsOf(n, u) <==>
            && IsAlive(f.s, u) && f.s.players[u].role == Some(LoneWolf) && u !in n.deaths && n.ascension.None?
            && forall alpha :: IsAlive(f.s, alpha) && f.s.players[alpha].role == Some(AlphaWolf) ==> alpha in n.deaths
  {
    hide Acting, ConversionStage, HitsLeft, ExposureStage, FindLivingBut, SingleHolders, WellFormed;
    var m := ExposureStage(f, ConversionStage(f, HitsLeft(f)));
    NotJoinedYet(f, u);
    FindsButTheDead(f.s, AlphaWolf, m.deaths.Keys);
    FindsButTheDead(f.s, LoneWolf, m.deaths.Keys);
    if IsAlive(f.s, u) && f.s.players[u].role == Some(LoneWolf) && u !in m.deaths { OneLoneWolf(f.s, u, FindLivingBut(f.s, LoneWolf, m.deaths.Keys)); }
  }

  lemma OneLoneWolf(s: GameState, u: UserId, found: Option<UserId>)
    requires SingleHolders(s) && IsAlive(s, u) && s.players[u].role == Some(LoneWolf)
    requires found.Some? && IsAlive(s, found.value) && Holds(s, found.value, LoneWolf)
    ensures found == Some(u)
  {
    assert SingleCopy(LoneWolf);
  }

  lemma NotJoinedYet(f: Facts, u: UserId)
    ensures AlphaDead !in TurnsOf(ExposureStage(f, ConversionStage(f, HitsLeft(f))), u)
  {
    hide HitsLeft, ConversionStage, ExposureStage;
    var n := ConversionStage(f, HitsLeft(f));
    ExposureTurnsNobody(f, n);
    if AlphaDead in TurnsOf(n, u) { TurnsOfConversion(f, HitsLeft(f), u, AlphaDead); }
  }

  lemma FindsButTheDead(s: GameState, role: RoleId, dead: set<UserId>)
    requires WellFormed(s)
    ensures FindLivingBut(s, role, dead).Some? <==> exists u :: IsAlive(s, u) && s.players[u].role == Some(role) && u !in dead
  {
    if u :| IsAlive(s, u) && s.players[u].role == Some(role) && u !in dead {
      var i :| 0 <= i < |s.roster| && s.roster[i] == u;
    }
  }

  // ---- The morning ----

  /** A living lover of somebody who died tonight dies too, and nobody else besides. */
  lemma TheLoversDie(s: GameState, n: Night, u: UserId)
    ensures u in DeathsTold(s, n).deaths <==>
            || u in n.deaths
            || (IsAlive(s, u) && exists v: UserId :: v in n.deaths && (LinkPair(s) == Some((u, v)) || LinkPair(s) == Some((v, u))))
  {
    hide LinkPair;
    var pair := LinkPair(s);
    if pair.Some? {
      var (a, b) := pair.value;
      assert u == b ==> pair == Some((a, u));
      assert u == a ==> pair == Some((u, b));
    }
  }

  /** What the morning finds of a player. The one who took the alpha's place is the
      alpha; the cult's are cultists, the pack's are werewolves, by the last turn. */
  lemma TheMorningAfter(s: GameState, n: Night, u: UserId)
    requires u in s.players
    ensures var p, q, turns := s.players[u], Projected(s, n).players[u], TurnsOf(n, u);
            && q.status == (if u in n.deaths then Dead else p.status)
            && q.role == (if n.ascension == Some(u) then Some(AlphaWolf)
                          else if turns == [] then p.role
                          else if turns[|turns| - 1] == CultTurn then Some(Cultist) else Some(Werewolf))
            && q.faction == (if n.ascension == Some(u) then Some(WolvesFaction)
                             else if turns == [] then p.faction
                             else if turns[|turns| - 1] == CultTurn then Some(CultFaction) else Some(WolvesFaction))
            && q == p.(status := q.status, role := q.role, faction := q.faction, roleState := q.roleState)
    ensures Projected(s, n).nightsWithoutElimination == if n.deaths.Keys == {} then s.nightsWithoutElimination + 1 else 0
  {
    hide NightPlayer, Committed, TurnsOf;
    CommittedIs(n, u, s.players[u]);
    OnlyTheMemoryBesides(s, n, u, s.players[u]);
  }

  lemma CommittedIs(n: Night, u: UserId, p: Player)
    ensures var q, turns := Committed(n, u, p), TurnsOf(n, u);
            && q.status == (if u in n.deaths then Dead else p.status)
            && q.role == (if n.ascension == Some(u) then Some(AlphaWolf)
                          else if turns == [] then p.role
                          else if turns[|turns| - 1] == CultTurn then Some(Cultist) else Some(Werewolf))
            && q.faction == (if n.ascension == Some(u) then Some(WolvesFaction)
                             else if turns == [] then p.faction
                             else if turns[|turns| - 1] == CultTurn then Some(CultFaction) else Some(WolvesFaction))
            && q == p.(status := q.status, role := q.role, faction := q.faction)
  {
    hide TurnsOf;
  }

  lemma OnlyTheMemoryBesides(s: GameState, n: Night, u: UserId, p: Player)
    ensures NightPlayer(s, n, u, p) == Committed(n, u, p).(roleState := NightPlayer(s, n, u, p).roleState)
  {
    hide NewLink, Acting, FindLiving, Committed;
  }

  /** A later turn outdoes an earlier one: the pack's roof over the lone wolf that over
      the cult's, the cult's that over the night's other turns. */
  lemma TheLastTurn(f: Facts, u: UserId)
    requires TurnsOf(HouseAttacks(f), u) != []
    ensures var turns := TurnsOf(HouseAttacks(f), u);
            var last := turns[|turns| - 1];
            && (AlphaDead in turns <==> last == AlphaDead)
            && (AlphaDead !in turns ==> (CultTurn in turns <==> last == CultTurn))
  {
    hide HitsLeft, ConversionStage, ExposureStage, FindLivingBut;
    var n := ConversionStage(f, HitsLeft(f));
    NotJoinedYet(f, u);
    ExposureTurnsNobody(f, n);
    TheCultComesLast(f, u);
  }

  lemma TheCultComesLast(f: Facts, u: UserId)
    ensures var turns := TurnsOf(ConversionStage(f, HitsLeft(f)), u);
            turns != [] ==> (CultTurn in turns <==> turns[|turns| - 1] == CultTurn)
  {
    hide HitsLeft, FateOf, Acting, House, CultImmune;
    TurnIsCursedOrAlpha(f, u);
  }

  lemma TurnIsCursedOrAlpha(f: Facts, u: UserId)
    ensures Turns(f, HitsLeft(f), u) ==> FateOf(f, HitsLeft(f), u).turn == CursedTurn || FateOf(f, HitsLeft(f), u).turn == AlphaTurn
  {
    hide HitsLeft, House, FindLiving;
  }

  lemma RoleStateIs(s: GameState, n: Night, u: UserId)
    requires u in s.players
    ensures Projected(s, n).players[u].roleState ==
            if FindLiving(s, Guardian) == Some(u) && Acting(s, GuardianBond).Some? then Protegee(Some(Acting(s, GuardianBond).value.1))
            else if FindLiving(s, Priest) == Some(u)
            then LastProtected(if Acting(s, PriestProtect).Some? then Some(Acting(s, PriestProtect).value.1) else None)
            else if NewLink(s).Some? && NewLink(s).value.0 == u then Linked(Some(NewLink(s).value.1))
            else s.players[u].roleState
  {
    hide NewLink, Acting, FindLiving, TurnsOf;
  }

  lemma GuardianBonds(s: GameState)
    requires AtNight(s) && Acting(s, GuardianBond).Some?
    ensures FindLiving(s, Guardian) == Some(Acting(s, GuardianBond).value.0)
  {
    hide Acting, FindLiving, SingleHolders, WellFormed;
    ActingIs(s, GuardianBond);
    FindsTheHolder(s, Guardian, Acting(s, GuardianBond).value.0);
  }

  /** The priest remembers whom they protected, even if that is nobody; a guardian who
      bonds remembers the ward, a cupid the pair; nobody else's memory changes. */
  lemma WhatIsRemembered(s: GameState, n: Night, u: UserId)
    requires AtNight(s) && u in s.players
    ensures var p, q, bond, protect := s.players[u], Projected(s, n).players[u], Acting(s, GuardianBond), Acting(s, PriestProtect);
            var guarding, praying := bond.Some? && bond.value.0 == u, p.status == Alive && p.role == Some(Priest);
            && (guarding ==> q.roleState == Protegee(Some(bond.value.1)))
            && (praying ==> q.roleState == LastProtected(if protect.Some? then Some(protect.value.1) else None))
            && (forall a: UserId, b: UserId :: Bonds(s, u, a, b) ==> q.roleState == Linked(Some((a, b))))
            && (!guarding && !praying && (forall a: UserId, b: UserId :: !Bonds(s, u, a, b)) ==> q.roleState == p.roleState)
  {
    hide NewLink, Acting, FindLiving, SingleHolders, WellFormed, Projected, Bonds;
    RoleStateIs(s, n, u);
    if Acting(s, GuardianBond).Some? {
      ActingIs(s, GuardianBond);
      GuardianBonds(s);
    }
    if IsAlive(s, u) && Holds(s, u, Priest) { FindsTheHolder(s, Priest, u); }
    forall a: UserId, b: UserId ensures Bonds(s, u, a, b) <==> NewLink(s) == Some((u, (a, b))) {
      BondingExactly(s, u, a, b);
    }
    if NewLink(s).Some? && NewLink(s).value.0 == u {
      assert Bonds(s, u, NewLink(s).value.1.0, NewLink(s).value.1.1);
      BondersAreCupids(s, u, NewLink(s).value.1.0, NewLink(s).value.1.1);
    }
  }

  lemma BondersAreCupids(s: GameState, u: UserId, a: UserId, b: UserId)
    requires Bonds(s, u, a, b)
    ensures Holds(s, u, Cupid)
  {
  }

  /** Who is let into a secret chat: the pack's by ascension or by any turn but the
      cult's, the cult's by its own. */
  lemma WhoIsLetIn(n: Night, u: UserId)
    ensures Joins(n, u, WolvesChannel) <==>
            n.ascension == Some(u) || CursedTurn in TurnsOf(n, u) || AlphaTurn in TurnsOf(n, u) || AlphaDead in TurnsOf(n, u)
    ensures Joins(n, u, CultChannel) <==> CultTurn in TurnsOf(n, u)
    ensures !Joins(n, u, PublicChannel) && !Joins(n, u, GraveChannel)
  {
    if i :| 0 <= i < |TurnsOf(n, u)| && !TurnsOf(n, u)[i].CultTurn? {
      assert TurnsOf(n, u)[i].CursedTurn? || TurnsOf(n, u)[i].AlphaTurn? || TurnsOf(n, u)[i].AlphaDead?;
    }
  }

  // ---- From the stored votes to the morning ----

  lemma OnlyTheLoneWolfAscends(f: Facts)
    ensures HouseAttacks(f).ascension.Some? ==> Holds(f.s, HouseAttacks(f).ascension.value, LoneWolf)
  {
    hide HunterStage, ClashStage, DuelStage, HouseAttacks, PlanAttacks;
    DeathsStay(f);
    NightOutcome.NobodyAscendsYet(f);
    DuelAscends(f, ClashStage(f, HunterStage(f, PlanAttacks(f, DUSK))));
  }

  lemma DuelAscends(f: Facts, n: Night)
    requires n.ascension.None?
    ensures DuelStage(f, n).ascension.Some? ==> Holds(f.s, DuelStage(f, n).ascension.value, LoneWolf)
  {
    hide Acting, FindLiving, House;
    if Acting(f.s, LoneWolfSearch).Some? { ActingIs(f.s, LoneWolfSearch); }
  }

  /** No priest protects this player, and no guardian lives for them. */
  ghost predicate Unguarded(s: GameState, v: UserId) {
    && (forall u: UserId :: !Takes(s, u, Priest, PriestProtect, v))
    && forall u: UserId :: IsAlive(s, u) && s.players[u].role == Some(Guardian) ==>
         s.players[u].roleState != Protegee(Some(v)) && !Takes(s, u, Guardian, GuardianBond, v)
  }

  lemma UnguardedIs(f: Facts, v: UserId)
    requires AtNight(f.s) && Unguarded(f.s, v)
    ensures HouseAttacks(f).protectedId != Some(v) && Ward(f.s) != Some(v)
  {
    hide HouseAttacks, Acting, Ward, Takes, WellFormed, SingleHolders;
    TheShield(f);
    var protect, bond := Acting(f.s, PriestProtect), Acting(f.s, GuardianBond);
    if protect.Some? { ActingExactly(f.s, protect.value.0, v); }
    TheWard(f.s, 0);
    if guardian :| IsAlive(f.s, guardian) && f.s.players[guardian].role == Some(Guardian) {
      TheWard(f.s, guardian);
      if bond.Some? {
        ActingExactly(f.s, bond.value.0, v);
        ActingIs(f.s, GuardianBond);
      }
    }
  }

  /** Main result. Whom the pack names is gone by the morning: an unguarded player who
      stays in, is neither of the pack nor the hunter or the lone wolf, and is named by
      strictly the most of the pack's living members, has died or changed sides. */
  lemma TheNamedAreGone(s: GameState, rolls: Rolls, v: UserId)
    requires AtNight(s) && IsAlive(s, v) && Unguarded(s, v)
    requires var role := s.players[v].role;
             role.Some? && role.value !in {Werewolf, AlphaWolf, Cub, Hunter, LoneWolf}
    requires forall w: UserId :: !WalksOut(s, v, w)
    requires HuntersOf(s, v) != {} && forall w: UserId :: w != v ==> |HuntersOf(s, w)| < |HuntersOf(s, v)|
    ensures var p := Projected(s, Outcome(s, rolls)).players[v];
            p.status == Dead || p.role == Some(Werewolf) || p.role == Some(Cultist)
  {
    hide HouseAttacks, Location, WalksOut, HuntersOf, WolfTarget, Unguarded, Projected, WellFormed, SingleHolders;
    var f := Facts(s, WolfTarget(s), rolls);
    TheBallot(s, v);
    WhereTheySleep(s, f.wolfTarget, v);
    UnguardedIs(f, v);
    ThePackStrikes(f, v);
    TheMorningAfter(s, Outcome(s, rolls), v);
    TheLoversDie(s, HouseAttacks(f), v);
    OnlyTheLoneWolfAscends(f);
  }
}
