/** What a whole night does to the game, whatever the intents and the dice. */
module NightOutcome {
  import opened Wrappers
  import opened Sorting
  import opened Roles
  import opened GameState
  import opened Victory
  import opened NightIntents
  import opened NightStages
  import opened NightPipeline
  import opened NightResolution

  // ---- Deaths ----

  lemma LoversWereAlive(s: GameState, f: Facts, n: Night)
    requires f.s == s && DeathsLive(f, n)
    ensures DeathsLive(f, DeathsTold(s, n))
    ensures n.deaths.Keys <= DeathsTold(s, n).deaths.Keys
  {
    hide LinkPair;
  }

  lemma OutcomeKillsTheLiving(s: GameState, rolls: Rolls)
    ensures forall u :: u in Outcome(s, rolls).deaths ==> IsAlive(s, u)
  {
    hide HouseAttacks, LinkDeaths, WolfTarget;
    var f := Facts(s, WolfTarget(s), rolls);
    OnlyTheLivingDie(f);
    LoversWereAlive(s, f, HouseAttacks(f));
  }

  /** Role states aside, a player is what the commit made of them. */
  lemma NightPlayerIsCommitted(s: GameState, n: Night, u: UserId, p: Player)
    ensures NightPlayer(s, n, u, p).status == Committed(n, u, p).status
    ensures NightPlayer(s, n, u, p).role == Committed(n, u, p).role
    ensures NightPlayer(s, n, u, p).faction == Committed(n, u, p).faction
  {
    hide NewLink, Acting, FindLiving, Committed;
  }

  lemma NightPlayerStatus(s: GameState, n: Night, u: UserId, p: Player)
    ensures NightPlayer(s, n, u, p).status == if u in n.deaths then Dead else p.status
  {
    hide NightPlayer, TurnsOf;
    NightPlayerIsCommitted(s, n, u, p);
  }

  lemma ProjectedLiving(s: GameState, n: Night)
    ensures Living(Projected(s, n)) == Living(s) - n.deaths.Keys
  {
    hide NightPlayer;
    forall u | u in s.players
      ensures NightPlayer(s, n, u, s.players[u]).status == if u in n.deaths then Dead else s.players[u].status
    {
      NightPlayerStatus(s, n, u, s.players[u]);
    }
  }

  /** A night that does not finish the game removes exactly its dead from the
      living, and every one of them was alive. */
  lemma NightRemovesExactlyItsDead(s: GameState, rolls: Rolls, now: int, next: GameState)
    requires s.phase.Some? && next == Morning(s, Outcome(s, rolls), now) && next.status == s.status != Finished
    ensures Outcome(s, rolls).deaths.Keys <= Living(s)
    ensures Living(next) == Living(s) - Outcome(s, rolls).deaths.Keys
  {
    hide Outcome, Projected, CheckVictory, FinishOffLosers;
    OutcomeKillsTheLiving(s, rolls);
    ProjectedLiving(s, Outcome(s, rolls));
    MorningLiving(s, Outcome(s, rolls), now);
  }

  lemma MorningLiving(s: GameState, n: Night, now: int)
    requires s.phase.Some?
    ensures Living(Morning(s, n, now)) <= Living(Projected(s, n))
    ensures CheckVictory(Projected(s, n)).None? ==> Living(Morning(s, n, now)) == Living(Projected(s, n))
  {
    hide Projected, CheckVictory;
    var projected := Projected(s, n);
    if CheckVictory(projected).Some? {
      var w := CheckVictory(projected).value;
      if w.faction.Some? { SurvivorsAfterFinish(projected, w); }
      else { NoPatchesNoChange(projected); }
    }
  }

  lemma NoPatchesNoChange(s: GameState)
    ensures ApplyPatches(s, []).players == s.players
  {
  }

  // ---- Termination ----

  /** What a game can still spend: five for each of the living, one for each
      quiet night left. */
  function Fuel(s: GameState): int { 5 * |Living(s)| + (4 - s.nightsWithoutElimination) }

  lemma SmallerSet(a: set<UserId>, b: set<UserId>)
    requires a <= b
    ensures |a| <= |b| && (a != b ==> |a| < |b|)
  {
    var rest := b - a;
    assert b == a + rest;
    assert |b| == |a| + |rest|;
  }

  /** Every night that does not finish the game spends fuel, and leaves at
      most four quiet nights on the clock. */
  lemma NightSpendsFuel(s: GameState, rolls: Rolls, now: int, next: GameState)
    requires s.phase.Some? && next == Morning(s, Outcome(s, rolls), now) && next.status == s.status != Finished
    requires s.nightsWithoutElimination <= 4
    ensures Fuel(next) < Fuel(s) && next.nightsWithoutElimination <= 4
  {
    hide Outcome;
    var n := Outcome(s, rolls);
    NightRemovesExactlyItsDead(s, rolls, now, next);
    SmallerSet(Living(next), Living(s));
    var projected := Projected(s, n);
    assert next.nightsWithoutElimination == Counted(s, n) by { hide Living, CheckVictory, NightPlayer; }
    if n.deaths != map[] {
      assert n.deaths.Keys != {};
      var u :| u in n.deaths.Keys;
      assert u in Living(s) && u !in Living(next);
    } else {
      QuietNightsEnd(s, n, now);
    }
  }

  lemma QuietNightsEnd(s: GameState, n: Night, now: int)
    requires s.phase.Some? && s.status != Finished && Morning(s, n, now).status == s.status
    ensures Counted(s, n) < STALEMATE_NIGHTS
  {
    hide Undoomed, NightPlayer;
  }

  // ---- Roles ----

  predicate RoleMatches(p: Player) { p.role.Some? ==> p.faction == Some(StartingFaction(p.role.value)) }

  lemma NightKeepsFactions(s: GameState, n: Night, u: UserId, p: Player)
    requires RoleMatches(p)
    ensures RoleMatches(NightPlayer(s, n, u, p))
  {
    hide NightPlayer, TurnsOf;
    NightPlayerIsCommitted(s, n, u, p);
  }

  /** How the night can have given a player the role they end it with. */
  lemma NightRole(s: GameState, n: Night, u: UserId, p: Player)
    ensures var role := NightPlayer(s, n, u, p).role;
      role == p.role || role == Some(Werewolf) || role == Some(Cultist) || (role == Some(AlphaWolf) && n.ascension == Some(u))
    ensures n.ascension.Some? && n.ascension != Some(u) ==>
              NightPlayer(s, n, u, p).role == p.role || NightPlayer(s, n, u, p).role != Some(AlphaWolf)
  {
    hide NightPlayer, TurnsOf;
    NightPlayerIsCommitted(s, n, u, p);
  }

  /** Whoever ends the night in a chat they were not in has been let into it. */
  lemma NewcomersJoin(s: GameState, n: Night, u: UserId, p: Player)
    ensures var q := NightPlayer(s, n, u, p);
      q.role.Some? && InWolfChat(q.role.value) && q.role != p.role ==> Joins(n, u, WolvesChannel)
    ensures var q := NightPlayer(s, n, u, p);
      q.role.Some? && InCultChat(q.role.value) && q.role != p.role ==> Joins(n, u, CultChannel)
  {
    hide NightPlayer, TurnsOf;
    NightPlayerIsCommitted(s, n, u, p);
  }

  /** An ascension means the alpha it replaces died. */
  ghost predicate AlphaFell(f: Facts, n: Night) {
    n.ascension.Some? ==> exists alpha :: alpha in n.deaths && IsAlive(f.s, alpha) && Holds(f.s, alpha, AlphaWolf)
  }

  lemma MoreDeathsKeepIt(f: Facts, n: Night, m: Night)
    requires AlphaFell(f, n) && m.ascension == n.ascension && n.deaths.Keys <= m.deaths.Keys
    ensures AlphaFell(f, m)
  {
    hide IsAlive, Holds;
    if m.ascension.Some? {
      var alpha :| alpha in n.deaths && IsAlive(f.s, alpha) && Holds(f.s, alpha, AlphaWolf);
      assert alpha in m.deaths;
    }
  }

  lemma DuelFells(f: Facts, n: Night)
    requires n.ascension.None?
    ensures AlphaFell(f, DuelStage(f, n))
  {
    hide Acting, IsAlive, Holds, Location;
    var m := DuelStage(f, n);
    if m.ascension.Some? { assert FindLiving(f.s, AlphaWolf).value in m.deaths; }
  }

  lemma LaterStagesKeepDeaths(f: Facts, n: Night)
    ensures HitStage(f, n).ascension == n.ascension && n.deaths.Keys <= HitStage(f, n).deaths.Keys
    ensures ShieldStage(f, n).ascension == n.ascension && n.deaths.Keys <= ShieldStage(f, n).deaths.Keys
    ensures SubstitutionStage(f, n).ascension == n.ascension && n.deaths.Keys <= SubstitutionStage(f, n).deaths.Keys
    ensures ConversionStage(f, n).ascension == n.ascension && n.deaths.Keys <= ConversionStage(f, n).deaths.Keys
    ensures ExposureStage(f, n).ascension == n.ascension && n.deaths.Keys <= ExposureStage(f, n).deaths.Keys
    ensures AscensionStage(f, n).ascension == n.ascension && n.deaths.Keys <= AscensionStage(f, n).deaths.Keys
  {
    hide Acting, FindLiving, FindLivingBut, AttackersOf, Ward, FateOf, Falls, Location, CultImmune;
  }

  lemma AscensionNeedsADeadAlpha(f: Facts)
    ensures AlphaFell(f, HouseAttacks(f))
  {
    hide HitStage, ShieldStage, SubstitutionStage, ConversionStage, ExposureStage, AscensionStage, DuelStage, AlphaFell;
    var c := Clashes(f);
    NobodyAscendsYet(f);
    DuelFells(f, ClashStage(f, HunterStage(f, PlanAttacks(f, DUSK))));
    LaterStagesKeepDeaths(f, c);
    LaterStagesKeepDeaths(f, HitStage(f, c));
    LaterStagesKeepDeaths(f, ShieldStage(f, HitStage(f, c)));
    LaterStagesKeepDeaths(f, HitsLeft(f));
    LaterStagesKeepDeaths(f, ConversionStage(f, HitsLeft(f)));
    LaterStagesKeepDeaths(f, ExposureStage(f, ConversionStage(f, HitsLeft(f))));
    MoreDeathsKeepIt(f, c, HouseAttacks(f));
  }

  lemma NobodyAscendsYet(f: Facts)
    ensures ClashStage(f, HunterStage(f, PlanAttacks(f, DUSK))).ascension.None?
  {
    hide Acting, Pack, RetaliateAll;
    var n := PlanAttacks(f, DUSK);
    NightContext.RetaliationHitsNobody(f, n, n.attacks);
  }

  /** After the night, as before it, at most one living player holds each role
      dealt in one copy. */
  lemma NightKeepsSingleHolders(s: GameState, rolls: Rolls)
    requires SingleHolders(s)
    ensures SingleHolders(Projected(s, Outcome(s, rolls)))
  {
    hide HouseAttacks, LinkDeaths, NightPlayer;
    var f := Facts(s, WolfTarget(s), rolls);
    AscensionNeedsADeadAlpha(f);
    var n := Outcome(s, rolls);
    assert n.ascension == HouseAttacks(f).ascension;
    OnlyTheLivingDie(f);
    LoversWereAlive(s, f, HouseAttacks(f));
    MoreDeathsKeepIt(f, HouseAttacks(f), n);
    SingleHoldersAfter(s, f, n);
  }

  lemma SingleHoldersAfter(s: GameState, f: Facts, n: Night)
    requires SingleHolders(s) && f.s == s && AlphaFell(f, n)
    ensures SingleHolders(Projected(s, n))
  {
    hide NightPlayer, AlphaFell;
    var t := Projected(s, n);
    forall u, v, role | SingleCopy(role) && IsAlive(t, u) && IsAlive(t, v) && Holds(t, u, role) && Holds(t, v, role)
      ensures u == v
    {
      HolderAfter(s, f, n, u, role);
      HolderAfter(s, f, n, v, role);
    }
  }

  /** Whoever holds a single-copy role after the night held it before, or is
      the ascended alpha. */
  lemma HolderAfter(s: GameState, f: Facts, n: Night, u: UserId, role: RoleId)
    requires SingleHolders(s) && f.s == s && AlphaFell(f, n)
    requires SingleCopy(role) && IsAlive(Projected(s, n), u) && Holds(Projected(s, n), u, role)
    ensures IsAlive(s, u)
    ensures if role == AlphaWolf && n.ascension.Some? then n.ascension == Some(u) else Holds(s, u, role)
  {
    hide NightPlayer;
    NightRole(s, n, u, s.players[u]);
    NightPlayerStatus(s, n, u, s.players[u]);
  }
}
