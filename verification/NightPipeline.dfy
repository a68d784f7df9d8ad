/** What the night's stages guarantee, whatever the intents and the dice. */
module NightPipeline {
  import opened Wrappers
  import opened Roles
  import opened GameState
  import opened NightIntents
  import opened NightStages

  // ---- Only the living die ----

  ghost predicate DeathsLive(f: Facts, n: Night) { forall u :: u in n.deaths ==> IsAlive(f.s, u) }

  lemma {:induction false} RetaliationKillsTheLiving(f: Facts, n: Night, attacks: seq<Attack>)
    requires DeathsLive(f, n)
    ensures DeathsLive(f, RetaliateAll(f, n, attacks))
    decreases |attacks|
  {
    if attacks != [] {
      RetaliationKillsTheLiving(f, n, attacks[..|attacks| - 1]);
      RetaliateOneLives(f, RetaliateAll(f, n, attacks[..|attacks| - 1]), attacks[|attacks| - 1]);
    }
  }

  lemma RetaliateOneLives(f: Facts, n: Night, attack: Attack)
    requires DeathsLive(f, n)
    ensures DeathsLive(f, Retaliate(f, n, attack))
  {
    hide Acting, Holds, Pack;
    if Acting(f.s, SerialKillerVisit).Some? { ActingIs(f.s, SerialKillerVisit); }
    if Pack(f, None) != [] { PickLives(f, None, f.rolls.hunterVictim); }
  }

  lemma PickLives(f: Facts, house: Option<UserId>, roll: nat)
    requires Pack(f, house) != []
    ensures IsAlive(f.s, Pick(Pack(f, house), roll)) && IsPackMember(f.s, Pick(Pack(f, house), roll))
  {
    hide IsAlive, IsPackMember;
  }

  lemma ClashStageLives(f: Facts, n: Night)
    requires DeathsLive(f, n)
    ensures DeathsLive(f, ClashStage(f, n))
  {
    hide Acting, Pack, Pick;
    if Acting(f.s, SerialKillerVisit).Some? {
      ActingIs(f.s, SerialKillerVisit);
      var house := Some(Acting(f.s, SerialKillerVisit).value.1);
      if Pack(f, house) != [] { PickLives(f, house, f.rolls.clashVictim); }
    }
  }

  lemma DuelStageLives(f: Facts, n: Night)
    requires DeathsLive(f, n)
    ensures DeathsLive(f, DuelStage(f, n))
  {
    hide Acting, FindLiving, Holds, Location;
    if Acting(f.s, LoneWolfSearch).Some? { ActingIs(f.s, LoneWolfSearch); }
  }

  lemma ClashesLive(f: Facts)
    ensures DeathsLive(f, Clashes(f))
  {
    hide RetaliateAll, ClashStage, DuelStage, DeathsLive;
    var n := PlanAttacks(f, DUSK);
    NobodyDead(f, n);
    RetaliationKillsTheLiving(f, n, n.attacks);
    ClashStageLives(f, HunterStage(f, n));
    DuelStageLives(f, ClashStage(f, HunterStage(f, n)));
  }

  lemma NobodyDead(f: Facts, n: Night)
    requires n.deaths == map[]
    ensures DeathsLive(f, n)
  {
  }

  // ---- The clashes ----

  /** The clash costs at most one life: the visiting killer's, or a pack member's who
      spends the night in the visited house. */
  lemma ClashTakesOne(f: Facts, n: Night, u: UserId, v: UserId)
    requires u in ClashStage(f, n).deaths && u !in n.deaths
    ensures Acting(f.s, SerialKillerVisit).Some?
    ensures var (killer, house) := Acting(f.s, SerialKillerVisit).value;
            (u == killer && Holds(f.s, u, SerialKiller)) || (IsAlive(f.s, u) && IsPackMember(f.s, u) && House(f, u) == house)
    ensures v in ClashStage(f, n).deaths && v !in n.deaths ==> v == u
    ensures ClashStage(f, n) == n.(deaths := ClashStage(f, n).deaths)
  {
    hide Acting, Holds, IsPackMember, House;
    ActingIs(f.s, SerialKillerVisit);
  }

  /** The duel is between the searching lone wolf and a living alpha in the searched
      house, costs exactly one of them their life, and the wolf ascends exactly when
      the alpha is the one to fall. */
  lemma DuelDecidesTheAlpha(f: Facts, n: Night, u: UserId)
    requires n.ascension.None? && Acting(f.s, LoneWolfSearch).Some?
    ensures var m := DuelStage(f, n);
            var (wolf, house) := Acting(f.s, LoneWolfSearch).value;
            var alpha := FindLiving(f.s, AlphaWolf);
            && m.search == Some(Search(wolf, house, m.search.value.found))
            && (m.search.value.found ==>
                  && alpha.Some? && alpha.value != wolf && House(f, alpha.value) == house
                  && alpha.value !in n.deaths && wolf !in n.deaths && (alpha.value in m.deaths <==> wolf !in m.deaths)
                  && (m.ascension == Some(wolf) <==> alpha.value in m.deaths))
            && (!m.search.value.found ==> m.ascension.None?)
            && (u in m.deaths && u !in n.deaths ==> m.search.value.found && (u == wolf || u == alpha.value))
  {
    hide Acting, FindLiving, Location;
    ActingIs(f.s, LoneWolfSearch);
  }

  // ---- The hits ----

  ghost predicate HitsAre(f: Facts, n: Night) {
    forall u :: u in n.hits ==> IsAlive(f.s, u) && !IsPackMember(f.s, u)
  }

  lemma HitStageSparesThePack(f: Facts, n: Night)
    ensures HitsAre(f, HitStage(f, n))
  {
    hide House;
    forall u | u in HitStage(f, n).hits ensures IsAlive(f.s, u) && !IsPackMember(f.s, u) {
      var k :| 0 <= k < |n.attacks| && Struck(f, n, n.attacks[k], u);
    }
  }

  lemma SubstitutionLives(f: Facts, n: Night)
    requires DeathsLive(f, n) && HitsAre(f, n)
    ensures DeathsLive(f, SubstitutionStage(f, n)) && HitsAre(f, SubstitutionStage(f, n))
  {
    hide IsPackMember, Acting, FindLiving;
  }

  /** The pack is never hit, and everyone hit is alive; nor has anyone died who
      was not. */
  lemma HitsLeftSpareThePack(f: Facts)
    ensures HitsAre(f, HitsLeft(f)) && DeathsLive(f, HitsLeft(f))
  {
    hide Clashes, HitStage, SubstitutionStage, IsPackMember, Acting, FindLiving;
    ClashesLive(f);
    var h := HitStage(f, Clashes(f));
    HitStageSparesThePack(f, Clashes(f));
    HitStageKeepsDeaths(f, Clashes(f));
    SubstitutionLives(f, ShieldStage(f, h));
  }

  lemma HitStageKeepsDeaths(f: Facts, n: Night)
    ensures HitStage(f, n).deaths == n.deaths
  {
  }

  /** A hit is taken away only by the shield or by the guardian's life: whoever was hit
      and no longer is, is shielded, or is the guardian's ward, for whom the guardian
      is now dead. */
  lemma HitsAreTakenAway(f: Facts, n: Night, u: UserId)
    requires u in n.hits
    ensures var m := SubstitutionStage(f, ShieldStage(f, n));
            && (u in m.hits ==> m.hits[u] == n.hits[u])
            && (u !in m.hits ==>
                  || m.protectedId == Some(u)
                  || (Ward(f.s) == Some(u) && FindLiving(f.s, Guardian).Some? && FindLiving(f.s, Guardian).value in m.deaths))
  {
    hide Acting, FindLiving;
  }

  lemma HitsAreNotAdded(f: Facts, n: Night)
    ensures SubstitutionStage(f, ShieldStage(f, n)).hits.Keys <= n.hits.Keys
  {
    hide Acting, FindLiving, Ward;
  }

  // ---- The shield ----

  /** A shielded player is not among the hits, and the guardian does not die
      for a shielded protegee. */
  lemma TheShieldHolds(f: Facts)
    ensures HitsLeft(f).protectedId.Some? ==> HitsLeft(f).protectedId.value !in HitsLeft(f).hits
    ensures Ward(f.s).Some? && Ward(f.s) == HitsLeft(f).protectedId ==>
              HitsLeft(f).deaths == Clashes(f).deaths
  {
    hide Clashes, Acting, FindLiving, AttackersOf, Ward;
  }

  // ---- Conversions ----

  function TurnsOf(n: Night, u: UserId): seq<ConversionCause> { if u in n.conversions then n.conversions[u] else [] }

  /** Every hit that is left, on a player not already dead, has exactly one
      outcome: death, the cursed turn or the alpha's turn. */
  lemma EachHitHasOneOutcome(f: Facts, u: UserId)
    requires u in HitsLeft(f).hits && u !in HitsLeft(f).deaths
    ensures var n := ConversionStage(f, HitsLeft(f));
      var dies, cursed, alpha := u in n.deaths, CursedTurn in TurnsOf(n, u), AlphaTurn in TurnsOf(n, u);
      && (dies || cursed || alpha)
      && !(dies && cursed) && !(dies && alpha) && !(cursed && alpha)
  {
    hide HitsLeft, FindLiving, Acting, IsPackMember, CultImmune, Location;
    HitsLeftSpareThePack(f);
  }

  /** The shield also keeps the cursed, the alpha's and the cult's turn away. */
  lemma TheShieldedAreNotTurned(f: Facts, u: UserId, cause: ConversionCause)
    requires HitsLeft(f).protectedId == Some(u) && cause in TurnsOf(HouseAttacks(f), u)
    ensures cause == AlphaDead
  {
    hide HitsLeft, FindLivingBut, Acting, CultImmune, Location, FateOf;
    TheShieldHolds(f);
  }

  /** Who can be turned, and by what: the cursed by the pack alone; by the alpha only
      the pack's own target, of the village, not the seer, hit by the pack alone while an
      alpha lives; by the cult only a living player who is not immune; and a lone wolf
      left without an alpha. */
  lemma TurnsHaveTheirReasons(f: Facts, u: UserId, cause: ConversionCause)
    requires cause in TurnsOf(HouseAttacks(f), u)
    ensures cause == CursedTurn ==> Holds(f.s, u, Cursed) && u in HitsLeft(f).hits && HitsLeft(f).hits[u] == {ByWolves}
    ensures cause == AlphaTurn ==>
              && f.wolfTarget == Some(u) && u in f.s.players && f.s.players[u].faction == Some(VillageFaction)
              && !Holds(f.s, u, Seer) && !Holds(f.s, u, Cursed) && FindLiving(f.s, AlphaWolf).Some?
              && u in HitsLeft(f).hits && HitsLeft(f).hits[u] == {ByWolves}
    ensures cause == CultTurn ==> IsAlive(f.s, u) && !CultImmune(f.s.players[u])
    ensures cause == AlphaDead ==> Holds(f.s, u, LoneWolf) && IsAlive(f.s, u) && HouseAttacks(f).ascension.None?
  {
    hide HitsLeft, HouseAttacks, FindLiving, FindLivingBut, IsPackMember, CultImmune;
    TurnComesFrom(f, u, cause);
    AttackersAreTwo(f, u);
  }

  /** The one stage that gives a turn. */
  lemma TurnComesFrom(f: Facts, u: UserId, cause: ConversionCause)
    requires cause in TurnsOf(HouseAttacks(f), u)
    ensures cause == CursedTurn || cause == AlphaTurn ==> Turns(f, HitsLeft(f), u) && FateOf(f, HitsLeft(f), u) == Turned(cause)
    ensures cause == CultTurn ==> IsAlive(f.s, u) && !CultImmune(f.s.players[u])
    ensures cause == AlphaDead ==> Holds(f.s, u, LoneWolf) && IsAlive(f.s, u) && HouseAttacks(f).ascension.None?
  {
    hide HitsLeft, FateOf, Turns, ConversionStage, ExposureStage, AscensionStage, CultImmune;
    var n := ConversionStage(f, HitsLeft(f));
    ExposureTurnsNobody(f, n);
    TurnsOfAscension(f, ExposureStage(f, n), u, cause);
    if cause in TurnsOf(n, u) { TurnsOfConversion(f, HitsLeft(f), u, cause); }
  }

  lemma ExposureTurnsNobody(f: Facts, n: Night)
    ensures ExposureStage(f, n).conversions == n.conversions && ExposureStage(f, n).ascension == n.ascension
  {
    hide Acting, House;
  }

  lemma TurnsOfAscension(f: Facts, n: Night, u: UserId, cause: ConversionCause)
    requires cause in TurnsOf(AscensionStage(f, n), u)
    ensures cause in TurnsOf(n, u)
            || (cause == AlphaDead && Holds(f.s, u, LoneWolf) && IsAlive(f.s, u) && AscensionStage(f, n).ascension.None?)
  {
    hide FindLivingBut;
  }

  lemma TurnsOfConversion(f: Facts, n: Night, u: UserId, cause: ConversionCause)
    requires cause in TurnsOf(ConversionStage(f, n), u)
    ensures (Turns(f, n, u) && FateOf(f, n, u) == Turned(cause) && (cause == CursedTurn || cause == AlphaTurn))
            || (cause == CultTurn && IsAlive(f.s, u) && !CultImmune(f.s.players[u]))
  {
    hide Acting, FindLiving, Location, CultImmune;
  }

  lemma AttackersAreTwo(f: Facts, u: UserId)
    ensures u in HitsLeft(f).hits && ByWolves in HitsLeft(f).hits[u] && BySerialKiller !in HitsLeft(f).hits[u] ==>
              HitsLeft(f).hits[u] == {ByWolves}
  {
    hide HitsLeft;
    if u in HitsLeft(f).hits && ByWolves in HitsLeft(f).hits[u] && BySerialKiller !in HitsLeft(f).hits[u] {
      forall a | a in HitsLeft(f).hits[u] ensures a == ByWolves { assert a.ByWolves? || a.BySerialKiller?; }
    }
  }

  /** Exposure kills nobody but a harlot in the house of a wolf who is in. */
  lemma OnlyAVisitingHarlotIsExposed(f: Facts, n: Night, u: UserId)
    requires u in ExposureStage(f, n).deaths && u !in n.deaths
    ensures IsAlive(f.s, u) && Holds(f.s, u, Harlot)
    ensures exists owner :: IsAlive(f.s, owner) && f.s.players[owner].faction == Some(WolvesFaction)
              && House(f, owner) == owner && House(f, u) == owner
  {
    hide Acting, Holds, WalksTo;
    ActingIs(f.s, HarlotVisit);
  }

  /** The lone wolf joins the pack only when the night leaves no alpha. */
  lemma NoAlphaIsLeft(f: Facts, n: Night, u: UserId, alpha: UserId)
    requires WellFormed(f.s) && AlphaDead in TurnsOf(AscensionStage(f, n), u) && AlphaDead !in TurnsOf(n, u)
    ensures IsAlive(f.s, alpha) && Holds(f.s, alpha, AlphaWolf) ==> alpha in n.deaths
    ensures n.ascension.None? && u !in n.deaths
  {
    hide Holds;
    if IsAlive(f.s, alpha) {
      var i :| 0 <= i < |f.s.roster| && f.s.roster[i] == alpha;
    }
  }

  // ---- The rest of the night ----

  lemma ConversionStageLives(f: Facts, n: Night)
    requires DeathsLive(f, n) && HitsAre(f, n)
    ensures DeathsLive(f, ConversionStage(f, n))
  {
    hide IsPackMember, Acting, FateOf;
  }

  lemma ExposureStageLives(f: Facts, n: Night)
    requires DeathsLive(f, n)
    ensures DeathsLive(f, ExposureStage(f, n))
  {
    hide Acting, Location, Holds;
    if Acting(f.s, HarlotVisit).Some? { ActingIs(f.s, HarlotVisit); }
  }

  /** Every recorded death is of a living player. */
  lemma OnlyTheLivingDie(f: Facts)
    ensures DeathsLive(f, HouseAttacks(f))
  {
    hide HitsLeft, ConversionStage, ExposureStage, FindLivingBut, DeathsLive;
    HitsLeftSpareThePack(f);
    ConversionStageLives(f, HitsLeft(f));
    ExposureStageLives(f, ConversionStage(f, HitsLeft(f)));
    AscensionKillsNobody(f, ExposureStage(f, ConversionStage(f, HitsLeft(f))));
  }

  lemma AscensionKillsNobody(f: Facts, n: Night)
    requires DeathsLive(f, n)
    ensures DeathsLive(f, AscensionStage(f, n))
  {
    hide FindLivingBut;
  }
}
