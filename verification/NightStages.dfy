/** The stages of a night, each as a function from the facts before it to the
    facts after it (resolution/night/attacks.ts and stages/). */
module NightStages {
  import opened Wrappers
  import opened Roles
  import opened GameState
  import opened NightIntents

  datatype Attacker = ByWolves | BySerialKiller

  datatype Attack = Attack(attacker: Attacker, house: UserId)

  datatype DeathCause =
    | WolfAttackDeath | SerialKillerDeath | HunterRetaliation | GuardianSubstitution | HarlotExposure | LoneWolfClash | LoverLink

  datatype ConversionCause = CursedTurn | AlphaTurn | CultTurn | AlphaDead

  datatype Search = Search(player: UserId, target: UserId, found: bool)

  /** The dice of one night; a draw below `n` is the roll modulo `n`. */
  datatype Rolls = Rolls(
    hunterWolves: bool, hunterKiller: bool, hunterVictim: nat,
    clash: bool, clashVictim: nat, duel: bool, alpha: bool)

  /** What the stages read. */
  datatype Facts = Facts(s: GameState, wolfTarget: Option<UserId>, rolls: Rolls)

  /** What the stages write. `conversions` lists each player's conversions in
      order: between players the order is immaterial. */
  datatype Night = Night(
    attacks: seq<Attack>,
    repelled: set<Attacker>,
    hits: map<UserId, set<Attacker>>,
    deaths: map<UserId, DeathCause>,
    conversions: map<UserId, seq<ConversionCause>>,
    ascension: Option<UserId>,
    search: Option<Search>,
    protectedId: Option<UserId>)

  const DUSK: Night := Night([], {}, map[], map[], map[], None, None, None)

  // ---- Reading the intents ----

  /** Who really took a targeted action, and on whom. */
  function Acting(s: GameState, a: ActionId): Option<(UserId, UserId)> {
    var intent := RealIntent(s, a);
    if intent.Some? && intent.value.choice.On? then Some((intent.value.actor, intent.value.choice.target)) else None
  }

  lemma ActingIs(s: GameState, a: ActionId)
    requires Acting(s, a).Some?
    ensures IsAlive(s, Acting(s, a).value.0) && (a != WolfAttack ==> Holds(s, Acting(s, a).value.0, OwnerOf(a)))
    ensures TargetOf(a).OneTarget? ==> IsAlive(s, Acting(s, a).value.1)
    ensures TravelsToTarget(a) ==> WalksTo(s, Acting(s, a).value.0) == Some(Acting(s, a).value.1)
  {
    hide IntentOf, RealIntent, Holds, Walk;
    RealIntentIs(s, a);
    if TravelsToTarget(a) { TravellersWalk(s, Acting(s, a).value.0, a); }
  }

  function House(f: Facts, u: UserId): UserId { Location(f.s, f.wolfTarget, u) }

  /** The living members of the pack in `house`, or all of them, in roster order. */
  function PackFrom(f: Facts, house: Option<UserId>, i: nat): (pack: seq<UserId>)
    requires i <= |f.s.roster|
    ensures forall u :: u in pack ==> IsAlive(f.s, u) && IsPackMember(f.s, u) && (house.Some? ==> House(f, u) == house.value)
    decreases |f.s.roster| - i
  {
    if i == |f.s.roster| then []
    else
      var u := f.s.roster[i];
      (if IsAlive(f.s, u) && IsPackMember(f.s, u) && (house.Some? ==> House(f, u) == house.value) then [u] else [])
      + PackFrom(f, house, i + 1)
  }

  function Pack(f: Facts, house: Option<UserId>): (pack: seq<UserId>)
    ensures forall u :: u in pack ==> IsAlive(f.s, u) && IsPackMember(f.s, u) && (house.Some? ==> House(f, u) == house.value)
  {
    PackFrom(f, house, 0)
  }

  function Pick(pack: seq<UserId>, roll: nat): (u: UserId)
    requires pack != []
    ensures u in pack
  {
    pack[roll % |pack|]
  }

  // ---- The attacks and the clashes ----

  function PlanAttacks(f: Facts, n: Night): Night {
    var visit := Acting(f.s, SerialKillerVisit);
    n.(attacks := n.attacks
                  + (if f.wolfTarget.Some? then [Attack(ByWolves, f.wolfTarget.value)] else [])
                  + (if visit.Some? then [Attack(BySerialKiller, visit.value.1)] else []))
  }

  /** The hunter at home beats one attack off at the cost of an attacker's life. */
  function Retaliate(f: Facts, n: Night, attack: Attack): Night {
    if !(IsAlive(f.s, attack.house) && Holds(f.s, attack.house, Hunter)) then n
    else if attack.attacker.ByWolves? then
      if !f.rolls.hunterWolves then n
      else if Pack(f, None) == [] then n.(repelled := n.repelled + {ByWolves})
      else n.(repelled := n.repelled + {ByWolves},
              deaths := n.deaths[Pick(Pack(f, None), f.rolls.hunterVictim) := HunterRetaliation])
    else if !f.rolls.hunterKiller then n
    else if Acting(f.s, SerialKillerVisit).None? then n.(repelled := n.repelled + {BySerialKiller})
    else n.(repelled := n.repelled + {BySerialKiller},
            deaths := n.deaths[Acting(f.s, SerialKillerVisit).value.0 := HunterRetaliation])
  }

  function RetaliateAll(f: Facts, n: Night, attacks: seq<Attack>): Night {
    if attacks == [] then n else Retaliate(f, RetaliateAll(f, n, attacks[..|attacks| - 1]), attacks[|attacks| - 1])
  }

  function HunterStage(f: Facts, n: Night): Night { RetaliateAll(f, n, n.attacks) }

  /** A visiting serial killer fights a wolf found in the same house. */
  function ClashStage(f: Facts, n: Night): Night {
    var visit := Acting(f.s, SerialKillerVisit);
    if visit.None? || Pack(f, Some(visit.value.1)) == [] then n
    else if f.rolls.clash then
      n.(deaths := n.deaths[Pick(Pack(f, Some(visit.value.1)), f.rolls.clashVictim) := SerialKillerDeath])
    else n.(deaths := n.deaths[visit.value.0 := WolfAttackDeath])
  }

  /** The lone wolf and the alpha in the same house fight; the winner leads. */
  function DuelStage(f: Facts, n: Night): Night {
    var search := Acting(f.s, LoneWolfSearch);
    if search.None? then n
    else
      var (wolf, house) := search.value;
      var alpha := FindLiving(f.s, AlphaWolf);
      var found := alpha.Some? && alpha.value !in n.deaths && wolf !in n.deaths && House(f, alpha.value) == house;
      var m := if !found then n
               else if f.rolls.duel then n.(deaths := n.deaths[alpha.value := LoneWolfClash], ascension := Some(wolf))
               else n.(deaths := n.deaths[wolf := LoneWolfClash]);
      m.(search := Some(Search(wolf, house, found)))
  }

  // ---- The hits ----

  predicate Struck(f: Facts, n: Night, attack: Attack, u: UserId) {
    && attack.attacker !in n.repelled
    && IsAlive(f.s, u) && House(f, u) == attack.house && !IsPackMember(f.s, u)
    && if attack.attacker.ByWolves? then
         && !(Holds(f.s, u, SerialKiller) && House(f, u) != u)
         && !(n.search.Some? && n.search.value.found && u == n.search.value.player)
       else
         Acting(f.s, SerialKillerVisit).Some? ==> u != Acting(f.s, SerialKillerVisit).value.0
  }

  function AttackersOf(f: Facts, n: Night, attacks: seq<Attack>, u: UserId): set<Attacker> {
    set k | 0 <= k < |attacks| && Struck(f, n, attacks[k], u) :: attacks[k].attacker
  }

  function HitStage(f: Facts, n: Night): Night {
    n.(hits := map u | u in Living(f.s) && AttackersOf(f, n, n.attacks, u) != {} :: AttackersOf(f, n, n.attacks, u))
  }

  function ShieldStage(f: Facts, n: Night): Night {
    var protect := Acting(f.s, PriestProtect);
    if FindLiving(f.s, Priest).Some? && protect.Some? then
      n.(protectedId := Some(protect.value.1), hits := n.hits - {protect.value.1})
    else n.(protectedId := None)
  }

  /** Whom the living guardian would die for: the bonded, else tonight's bond. */
  function Ward(s: GameState): Option<UserId> {
    var guardian := FindLiving(s, Guardian);
    if guardian.None? then None
    else if s.players[guardian.value].roleState.Protegee? && s.players[guardian.value].roleState.protegee.Some?
    then s.players[guardian.value].roleState.protegee
    else if Acting(s, GuardianBond).Some? then Some(Acting(s, GuardianBond).value.1)
    else None
  }

  function SubstitutionStage(f: Facts, n: Night): Night {
    if Ward(f.s).Some? && Ward(f.s).value in n.hits then
      n.(deaths := n.deaths[FindLiving(f.s, Guardian).value := GuardianSubstitution], hits := n.hits - {Ward(f.s).value})
    else n
  }

  // ---- Conversions and deaths ----

  datatype Fate = Turned(turn: ConversionCause) | Dies(cause: DeathCause)

  function FateOf(f: Facts, n: Night, u: UserId): Fate
    requires u in n.hits && u in f.s.players
  {
    var cleanKill := ByWolves in n.hits[u] && BySerialKiller !in n.hits[u];
    if Holds(f.s, u, Cursed) && cleanKill then Turned(CursedTurn)
    else if Some(u) == f.wolfTarget && cleanKill && FindLiving(f.s, AlphaWolf).Some?
            && f.s.players[u].faction == Some(VillageFaction) && !Holds(f.s, u, Seer) && f.rolls.alpha
    then Turned(AlphaTurn)
    else if Holds(f.s, u, Harlot) && House(f, u) != u then Dies(HarlotExposure)
    else Dies(if BySerialKiller in n.hits[u] then SerialKillerDeath else WolfAttackDeath)
  }

  predicate Turns(f: Facts, n: Night, u: UserId) {
    u in n.hits && u in f.s.players && u !in n.deaths && FateOf(f, n, u).Turned?
  }

  predicate Falls(f: Facts, n: Night, u: UserId) {
    u in n.hits && u in f.s.players && u !in n.deaths && FateOf(f, n, u).Dies?
  }

  function HitsResolved(f: Facts, n: Night): Night {
    n.(deaths := map u | u in n.deaths.Keys + n.hits.Keys && (u in n.deaths || Falls(f, n, u)) ::
                   if u in n.deaths then n.deaths[u] else FateOf(f, n, u).cause,
       conversions := map u | u in n.hits && Turns(f, n, u) :: [FateOf(f, n, u).turn])
  }

  predicate CultImmune(p: Player) {
    p.faction == Some(WolvesFaction) || p.role == Some(SerialKiller) || p.role == Some(Hunter)
  }

  function Converted(n: Night, u: UserId, cause: ConversionCause): Night {
    n.(conversions := n.conversions[u := (if u in n.conversions then n.conversions[u] else []) + [cause]])
  }

  function CultStage(f: Facts, n: Night): Night {
    var convert := Acting(f.s, CultConvert);
    if convert.Some? && IsAlive(f.s, convert.value.1) && convert.value.1 !in n.deaths
       && Some(convert.value.1) != n.protectedId && !CultImmune(f.s.players[convert.value.1])
    then Converted(n, convert.value.1, CultTurn) else n
  }

  function ConversionStage(f: Facts, n: Night): Night { CultStage(f, HitsResolved(f, n)) }

  /** A harlot who walks in on a wolf at home dies of it. */
  function ExposureStage(f: Facts, n: Night): Night {
    var visit := Acting(f.s, HarlotVisit);
    if visit.Some? && visit.value.1 in f.s.players && f.s.players[visit.value.1].faction == Some(WolvesFaction)
       && IsAlive(f.s, visit.value.1) && House(f, visit.value.1) == visit.value.1 && visit.value.0 !in n.deaths
    then n.(deaths := n.deaths[visit.value.0 := HarlotExposure]) else n
  }

  /** With no alpha left to hunt, a living lone wolf joins the pack. */
  function AscensionStage(f: Facts, n: Night): Night {
    var wolf := FindLivingBut(f.s, LoneWolf, n.deaths.Keys);
    if FindLivingBut(f.s, AlphaWolf, n.deaths.Keys).None? && n.ascension.None? && wolf.Some?
    then Converted(n, wolf.value, AlphaDead) else n
  }

  function Clashes(f: Facts): Night { DuelStage(f, ClashStage(f, HunterStage(f, PlanAttacks(f, DUSK)))) }

  function HitsLeft(f: Facts): Night { SubstitutionStage(f, ShieldStage(f, HitStage(f, Clashes(f)))) }

  /** The house attacks, in their fixed order. */
  function HouseAttacks(f: Facts): Night { AscensionStage(f, ExposureStage(f, ConversionStage(f, HitsLeft(f)))) }
}
