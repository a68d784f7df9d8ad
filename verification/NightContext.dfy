/** The evolving facts of one night, updated in place stage by stage
    (resolution/night/context.ts, attacks.ts and stages/). */
module NightContext {
  import opened Wrappers
  import opened Roles
  import opened GameState
  import opened NightIntents
  import opened NightStages

  /** What every player has been hit by so far: all of `done`, and `next` for
      the occupants among the first `j` of the roster. */
  ghost predicate HitSoFar(f: Facts, n: Night, hits: map<UserId, set<Attacker>>, done: seq<Attack>, next: Attack, j: nat)
    requires j <= |f.s.roster|
  {
    forall u: UserId ::
      var attackers := AttackersOf(f, n, done, u) + (if u in f.s.roster[..j] && Struck(f, n, next, u) then {next.attacker} else {});
      (u in hits <==> attackers != {}) && (u in hits ==> hits[u] == attackers)
  }

  ghost predicate HitBy(f: Facts, n: Night, hits: map<UserId, set<Attacker>>, done: seq<Attack>) {
    forall u: UserId ::
      (u in hits <==> AttackersOf(f, n, done, u) != {}) && (u in hits ==> hits[u] == AttackersOf(f, n, done, u))
  }

  lemma AttackersOneMore(f: Facts, n: Night, done: seq<Attack>, next: Attack, u: UserId)
    ensures AttackersOf(f, n, done + [next], u)
         == AttackersOf(f, n, done, u) + (if Struck(f, n, next, u) then {next.attacker} else {})
  {
    hide Struck;
    var more := done + [next];
    forall a ensures a in AttackersOf(f, n, more, u)
                 <==> a in AttackersOf(f, n, done, u) + (if Struck(f, n, next, u) then {next.attacker} else {})
    {
      if a in AttackersOf(f, n, done, u) {
        var k :| 0 <= k < |done| && Struck(f, n, done[k], u) && a == done[k].attacker;
        assert more[k] == done[k];
      }
      if Struck(f, n, next, u) { assert more[|done|] == next; }
    }
  }

  lemma StruckFrames(f: Facts, n: Night, m: Night, attack: Attack, u: UserId)
    requires n.repelled == m.repelled && n.search == m.search
    ensures Struck(f, n, attack, u) == Struck(f, m, attack, u)
  {
  }

  lemma HitStarts(f: Facts, n: Night, hits: map<UserId, set<Attacker>>, done: seq<Attack>, next: Attack)
    requires HitBy(f, n, hits, done)
    ensures HitSoFar(f, n, hits, done, next, 0)
  {
    hide Struck, AttackersOf;
  }

  lemma HitOneMore(f: Facts, n: Night, hits: map<UserId, set<Attacker>>, done: seq<Attack>, next: Attack, j: nat)
    requires WellFormed(f.s) && j < |f.s.roster| && HitSoFar(f, n, hits, done, next, j)
    ensures Struck(f, n, next, f.s.roster[j]) ==>
              HitSoFar(f, n, hits[f.s.roster[j] := (if f.s.roster[j] in hits then hits[f.s.roster[j]] else {}) + {next.attacker}], done, next, j + 1)
    ensures !Struck(f, n, next, f.s.roster[j]) ==> HitSoFar(f, n, hits, done, next, j + 1)
  {
    hide Struck, AttackersOf;
    var r := f.s.roster;
    assert r[..j + 1] == r[..j] + [r[j]];
    assert r[j] !in r[..j];
  }

  lemma HitEnds(f: Facts, n: Night, hits: map<UserId, set<Attacker>>, done: seq<Attack>, next: Attack)
    requires WellFormed(f.s) && HitSoFar(f, n, hits, done, next, |f.s.roster|)
    ensures HitBy(f, n, hits, done + [next])
  {
    hide AttackersOf, HitBy;
    var r := f.s.roster;
    assert r[..|r|] == r;
    forall u: UserId
      ensures u in hits <==> AttackersOf(f, n, done + [next], u) != {}
      ensures u in hits ==> hits[u] == AttackersOf(f, n, done + [next], u)
    {
      AttackersOneMore(f, n, done, next, u);
      assert Struck(f, n, next, u) ==> u in r;
    }
    HitByIs(f, n, hits, done + [next]);
  }

  lemma HitByIs(f: Facts, n: Night, hits: map<UserId, set<Attacker>>, done: seq<Attack>)
    requires forall u: UserId ::
      (u in hits <==> AttackersOf(f, n, done, u) != {}) && (u in hits ==> hits[u] == AttackersOf(f, n, done, u))
    ensures HitBy(f, n, hits, done)
  {
  }

  lemma RepelledHitsNobody(f: Facts, n: Night, hits: map<UserId, set<Attacker>>, done: seq<Attack>, next: Attack)
    requires HitBy(f, n, hits, done) && next.attacker in n.repelled
    ensures HitBy(f, n, hits, done + [next])
  {
    hide AttackersOf;
    forall u: UserId ensures AttackersOf(f, n, done + [next], u) == AttackersOf(f, n, done, u) {
      AttackersOneMore(f, n, done, next, u);
    }
  }

  lemma HitByNobody(f: Facts, n: Night)
    ensures HitBy(f, n, map[], [])
  {
  }

  lemma HitByAll(f: Facts, n: Night, hits: map<UserId, set<Attacker>>)
    requires HitBy(f, n, hits, n.attacks)
    ensures n.(hits := hits) == HitStage(f, n)
  {
    forall u | u in hits ensures u in Living(f.s) {
      assert AttackersOf(f, n, n.attacks, u) != {};
      var a :| a in AttackersOf(f, n, n.attacks, u);
    }
    assert hits == HitStage(f, n).hits;
  }

  lemma FateFrames(f: Facts, n: Night, m: Night, u: UserId)
    requires n.hits == m.hits && u in n.hits && u in f.s.players
    ensures FateOf(f, n, u) == FateOf(f, m, u)
  {
  }

  lemma {:induction false} RetaliationHitsNobody(f: Facts, n: Night, attacks: seq<Attack>)
    ensures RetaliateAll(f, n, attacks) == n.(repelled := RetaliateAll(f, n, attacks).repelled, deaths := RetaliateAll(f, n, attacks).deaths)
    decreases |attacks|
  {
    if attacks != [] { RetaliationHitsNobody(f, n, attacks[..|attacks| - 1]); }
  }

  lemma NothingHitYet(f: Facts)
    ensures Clashes(f).hits == map[] && Clashes(f).conversions == map[]
  {
    hide Acting, RetaliateAll, FindLiving, Pack, Location;
    var n := PlanAttacks(f, DUSK);
    RetaliationHitsNobody(f, n, n.attacks);
  }

  lemma HitsLeftAre(f: Facts)
    ensures HitsLeft(f).conversions == map[]
    ensures HitsLeft(f).hits.Keys <= Living(f.s)
  {
    hide Acting, Clashes, FindLiving, AttackersOf, Ward;
    NothingHitYet(f);
  }

  /** The deaths once every victim outside `left` has met their fate. */
  ghost predicate Fallen(f: Facts, n: Night, deaths: map<UserId, DeathCause>, left: set<UserId>) {
    && (forall u: UserId :: u in deaths <==> u in n.deaths || (u !in left && Falls(f, n, u)))
    && (forall u: UserId :: u in deaths ==> deaths[u] == if u in n.deaths then n.deaths[u] else FateOf(f, n, u).cause)
  }

  ghost predicate TurnedSo(f: Facts, n: Night, conversions: map<UserId, seq<ConversionCause>>, left: set<UserId>) {
    && (forall u: UserId :: u in conversions <==> u !in left && Turns(f, n, u))
    && (forall u: UserId :: u in conversions ==> conversions[u] == [FateOf(f, n, u).turn])
  }

  lemma NoneJudged(f: Facts, n: Night)
    requires n.conversions == map[]
    ensures Fallen(f, n, n.deaths, n.hits.Keys) && TurnedSo(f, n, n.conversions, n.hits.Keys)
  {
  }

  lemma StillOpen(f: Facts, n: Night, deaths: map<UserId, DeathCause>, left: set<UserId>, victim: UserId)
    requires Fallen(f, n, deaths, left) && victim in left
    ensures victim in deaths <==> victim in n.deaths
  {
  }

  lemma OneMoreJudged(f: Facts, n: Night, deaths: map<UserId, DeathCause>, conversions: map<UserId, seq<ConversionCause>>,
                      left: set<UserId>, victim: UserId, fate: Option<Fate>)
    requires Fallen(f, n, deaths, left) && TurnedSo(f, n, conversions, left)
    requires victim in left && victim in n.hits && victim in f.s.players
    requires fate == if victim in deaths then None else Some(FateOf(f, n, victim))
    ensures Fallen(f, n, if fate.Some? && fate.value.Dies? then deaths[victim := fate.value.cause] else deaths, left - {victim})
    ensures TurnedSo(f, n, if fate.Some? && fate.value.Turned? then conversions[victim := [fate.value.turn]] else conversions, left - {victim})
  {
    hide FateOf;
  }

  lemma AllJudged(f: Facts, n: Night, deaths: map<UserId, DeathCause>, conversions: map<UserId, seq<ConversionCause>>)
    requires Fallen(f, n, deaths, {}) && TurnedSo(f, n, conversions, {})
    ensures n.(deaths := deaths, conversions := conversions) == HitsResolved(f, n)
  {
    hide FateOf;
    assert deaths == HitsResolved(f, n).deaths;
    assert conversions == HitsResolved(f, n).conversions;
  }

  class NightContext {
    const s: GameState
    const frozen: Frozen
    const locations: map<UserId, UserId>
    const rolls: Rolls
    const wolfTarget: Option<UserId>
    var attacks: seq<Attack>
    var repelled: set<Attacker>
    var hits: map<UserId, set<Attacker>>
    var deaths: map<UserId, DeathCause>
    var conversions: map<UserId, seq<ConversionCause>>
    var ascension: Option<UserId>
    var search: Option<Search>
    var protectedId: Option<UserId>

    ghost predicate Valid() {
      && WellFormed(s) && Freezes(s, frozen) && locations.Keys == Living(s)
      && forall u :: u in locations ==> locations[u] == Location(s, wolfTarget, u)
    }

    function F(): Facts { Facts(s, wolfTarget, rolls) }

    function View(): Night
      reads this
    {
      Night(attacks, repelled, hits, deaths, conversions, ascension, search, protectedId)
    }

    constructor (s: GameState, frozen: Frozen, locations: map<UserId, UserId>, wolfTarget: Option<UserId>, rolls: Rolls)
      requires WellFormed(s) && Freezes(s, frozen) && locations.Keys == Living(s)
      requires forall u :: u in locations ==> locations[u] == Location(s, wolfTarget, u)
      ensures Valid() && F() == Facts(s, wolfTarget, rolls) && View() == DUSK
    {
      this.s, this.frozen, this.locations, this.wolfTarget, this.rolls := s, frozen, locations, wolfTarget, rolls;
      attacks, repelled, hits, deaths, conversions, ascension, search, protectedId := [], {}, map[], map[], map[], None, None, None;
    }

    /** The actor and target of the intent that takes effect. */
    function Real(a: ActionId): (r: Option<(UserId, UserId)>)
      requires Valid()
      ensures r == Acting(s, a)
    {
      var intent := FirstReal(IntentsFor(frozen, a));
      if intent.Some? && intent.value.choice.On? then Some((intent.value.actor, intent.value.choice.target)) else None
    }

    method Plan()
      requires Valid()
      modifies this
      ensures View() == PlanAttacks(F(), old(View()))
    {
      if wolfTarget.Some? { attacks := attacks + [Attack(ByWolves, wolfTarget.value)]; }
      var visit := Real(SerialKillerVisit);
      if visit.Some? { attacks := attacks + [Attack(BySerialKiller, visit.value.1)]; }
    }

    method RetaliateTo(attack: Attack)
      requires Valid()
      modifies this
      ensures View() == Retaliate(F(), old(View()), attack)
    {
      hide Acting, Holds, IsAlive, Pack, Freezes;
      var visit := Real(SerialKillerVisit);
      if !IsAlive(s, attack.house) || !Holds(s, attack.house, Hunter) { return; }
      if attack.attacker.ByWolves? {
        if rolls.hunterWolves {
          repelled := repelled + {ByWolves};
          var wolves := Pack(F(), None);
          if |wolves| > 0 { deaths := deaths[wolves[rolls.hunterVictim % |wolves|] := HunterRetaliation]; }
        }
      } else if rolls.hunterKiller {
        repelled := repelled + {BySerialKiller};
        if visit.Some? { deaths := deaths[visit.value.0 := HunterRetaliation]; }
      }
    }

    method HunterStageInPlace()
      requires Valid()
      modifies this
      ensures View() == HunterStage(F(), old(View()))
    {
      hide Retaliate, Freezes;
      var plan := attacks;
      for i := 0 to |plan|
        invariant View() == RetaliateAll(F(), old(View()), plan[..i])
      {
        assert plan[..i + 1][..i] == plan[..i];
        RetaliateTo(plan[i]);
      }
      assert plan[..|plan|] == plan;
    }

    method SerialKillerClash()
      requires Valid()
      modifies this
      ensures View() == ClashStage(F(), old(View()))
    {
      var visit := Real(SerialKillerVisit);
      if visit.Some? {
        var wolves := Pack(F(), Some(visit.value.1));
        if |wolves| > 0 {
          if rolls.clash {
            deaths := deaths[wolves[rolls.clashVictim % |wolves|] := SerialKillerDeath];
          } else {
            deaths := deaths[visit.value.0 := WolfAttackDeath];
          }
        }
      }
    }

    method LoneWolfDuel()
      requires Valid()
      modifies this
      ensures View() == DuelStage(F(), old(View()))
    {
      hide Acting, FindLiving, Location, Freezes;
      var hunt := Real(LoneWolfSearch);
      if hunt.Some? {
        var (wolf, house) := hunt.value;
        var alpha := FindLiving(s, AlphaWolf);
        var found := alpha.Some? && alpha.value !in deaths && wolf !in deaths && locations[alpha.value] == house;
        if found {
          if rolls.duel {
            deaths := deaths[alpha.value := LoneWolfClash];
            ascension := Some(wolf);
          } else {
            deaths := deaths[wolf := LoneWolfClash];
          }
        }
        search := Some(Search(wolf, house, found));
      }
    }

    /** Whether `attack` lands on this player: an occupant of the house who is
        not excused. */
    method Lands(attack: Attack, u: UserId) returns (lands: bool)
      requires Valid() && attack.attacker !in repelled
      ensures lands == Struck(F(), View(), attack, u)
    {
      hide Acting, Holds, IsPackMember, Freezes;
      var visit := Real(SerialKillerVisit);
      if !IsAlive(s, u) || locations[u] != attack.house { return false; }
      if attack.attacker.ByWolves? {
        if IsPackMember(s, u) { return false; }
        if Holds(s, u, SerialKiller) && locations[u] != u { return false; }
        if search.Some? && search.value.found && u == search.value.player { return false; }
      } else {
        if visit.Some? && u == visit.value.0 { return false; }
        if IsPackMember(s, u) { return false; }
      }
      return true;
    }

    method HitOccupants(attack: Attack, ghost n: Night, ghost done: seq<Attack>)
      requires Valid() && n == View().(hits := n.hits)
      requires attack.attacker !in repelled && HitBy(F(), n, hits, done)
      modifies this`hits
      ensures HitBy(F(), n, hits, done + [attack])
    {
      hide Freezes, Struck, HitBy, HitSoFar;
      HitStarts(F(), n, hits, done, attack);
      for j := 0 to |s.roster|
        invariant HitSoFar(F(), n, hits, done, attack, j)
      {
        var u := s.roster[j];
        var lands := Lands(attack, u);
        StruckFrames(F(), View(), n, attack, u);
        HitOneMore(F(), n, hits, done, attack, j);
        if lands {
          hits := hits[u := (if u in hits then hits[u] else {}) + {attack.attacker}];
        }
      }
      HitEnds(F(), n, hits, done, attack);
    }

    method ComputeHits()
      requires Valid() && hits == map[]
      modifies this`hits
      ensures View() == HitStage(F(), old(View()))
    {
      hide Freezes, Struck, HitBy, AttackersOf;
      ghost var n := View();
      HitByNobody(F(), n);
      for i := 0 to |attacks|
        invariant HitBy(F(), n, hits, attacks[..i])
      {
        assert attacks[..i + 1] == attacks[..i] + [attacks[i]];
        if attacks[i].attacker !in repelled {
          HitOccupants(attacks[i], n, attacks[..i]);
        } else {
          RepelledHitsNobody(F(), n, hits, attacks[..i], attacks[i]);
        }
      }
      assert attacks[..|attacks|] == attacks;
      HitByAll(F(), n, hits);
    }

    method PriestShield()
      requires Valid()
      modifies this
      ensures View() == ShieldStage(F(), old(View()))
    {
      var priest := FindLiving(s, Priest);
      var protect := Real(PriestProtect);
      protectedId := if priest.Some? && protect.Some? then Some(protect.value.1) else None;
      if protectedId.Some? { hits := hits - {protectedId.value}; }
    }

    method GuardianSubstitutionStage()
      requires Valid()
      modifies this
      ensures View() == SubstitutionStage(F(), old(View()))
    {
      var guardian := FindLiving(s, Guardian);
      var protegee: Option<UserId> := None;
      if guardian.Some? {
        var state := s.players[guardian.value].roleState;
        var bond := Real(GuardianBond);
        protegee := if state.Protegee? && state.protegee.Some? then state.protegee
                    else if bond.Some? then Some(bond.value.1) else None;
      }
      if protegee.Some? && protegee.value in hits {
        deaths := deaths[guardian.value := GuardianSubstitution];
        hits := hits - {protegee.value};
      }
    }

    /** What becomes of one victim. */
    method Judge(victim: UserId) returns (fate: Fate)
      requires Valid() && victim in hits && IsAlive(s, victim)
      ensures fate == FateOf(F(), View(), victim)
    {
      hide Freezes, FindLiving;
      var attackers := hits[victim];
      var p := s.players[victim];
      if p.role == Some(Cursed) && ByWolves in attackers && BySerialKiller !in attackers { return Turned(CursedTurn); }
      if Some(victim) == wolfTarget && ByWolves in attackers && BySerialKiller !in attackers
         && FindLiving(s, AlphaWolf).Some? && p.faction == Some(VillageFaction) && p.role != Some(Seer) && rolls.alpha {
        return Turned(AlphaTurn);
      }
      var cause := if BySerialKiller in attackers then SerialKillerDeath else WolfAttackDeath;
      if p.role == Some(Harlot) && locations[victim] != victim { return Dies(HarlotExposure); }
      return Dies(cause);
    }

    method ResolveHits()
      requires Valid() && conversions == map[] && hits.Keys <= Living(s)
      modifies this
      ensures View() == HitsResolved(F(), old(View()))
    {
      hide Freezes, FateOf, Turns, Falls, Fallen, TurnedSo, HitsResolved;
      ghost var n := View();
      var left := hits.Keys;
      NoneJudged(F(), n);
      while left != {}
        invariant left <= n.hits.Keys
        invariant View() == n.(deaths := deaths, conversions := conversions)
        invariant Fallen(F(), n, deaths, left) && TurnedSo(F(), n, conversions, left)
        decreases |left|
      {
        var victim: UserId :| victim in left;
        StillOpen(F(), n, deaths, left, victim);
        var fate: Option<Fate> := None;
        if victim !in deaths {
          var f := Judge(victim);
          FateFrames(F(), View(), n, victim);
          fate := Some(f);
        }
        OneMoreJudged(F(), n, deaths, conversions, left, victim, fate);
        left := left - {victim};
        if fate.Some? && fate.value.Turned? { conversions := conversions[victim := [fate.value.turn]]; }
        if fate.Some? && fate.value.Dies? { deaths := deaths[victim := fate.value.cause]; }
      }
      AllJudged(F(), n, deaths, conversions);
    }

    method ConvertToCult()
      requires Valid()
      modifies this
      ensures View() == CultStage(F(), old(View()))
    {
      hide Freezes, Acting;
      var convert := Real(CultConvert);
      if convert.Some? {
        var target := convert.value.1;
        if IsAlive(s, target) && target !in deaths && Some(target) != protectedId && !CultImmune(s.players[target]) {
          var before := if target in conversions then conversions[target] else [];
          conversions := conversions[target := before + [CultTurn]];
        }
      }
    }

    method HarlotExposureStage()
      requires Valid()
      modifies this
      ensures View() == ExposureStage(F(), old(View()))
    {
      var visit := Real(HarlotVisit);
      if visit.Some? {
        var (harlot, house) := visit.value;
        if house in s.players && s.players[house].faction == Some(WolvesFaction)
           && house in locations && locations[house] == house && harlot !in deaths {
          deaths := deaths[harlot := HarlotExposure];
        }
      }
    }

    method LoneWolfAscension()
      requires Valid()
      modifies this
      ensures View() == AscensionStage(F(), old(View()))
    {
      var alpha := FindLivingBut(s, AlphaWolf, deaths.Keys);
      var wolf := FindLivingBut(s, LoneWolf, deaths.Keys);
      if alpha.None? && ascension.None? && wolf.Some? {
        var before := if wolf.value in conversions then conversions[wolf.value] else [];
        conversions := conversions[wolf.value := before + [AlphaDead]];
      }
    }

    method ResolveHouseAttacks()
      requires Valid() && View() == DUSK
      modifies this
      ensures View() == HouseAttacks(F())
    {
      hide PlanAttacks, HunterStage, ClashStage, DuelStage, HitStage, ShieldStage, SubstitutionStage, HitsResolved, CultStage,
           ExposureStage, AscensionStage, Freezes;
      Plan();
      HunterStageInPlace();
      SerialKillerClash();
      LoneWolfDuel();
      NothingHitYet(F());
      ComputeHits();
      PriestShield();
      GuardianSubstitutionStage();
      HitsLeftAre(F());
      ResolveHits();
      ConvertToCult();
      HarlotExposureStage();
      LoneWolfAscension();
    }
  }
}
