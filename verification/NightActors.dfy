/** Who acts at night, where everybody is and whom the pack hunts, told from the
    stored actions alone (resolution/night/freeze.ts, locations.ts, index.ts). */
module NightActors {
  import opened Wrappers
  import opened Roles
  import opened Slices
  import opened GameState
  import opened Actions
  import opened Tally
  import opened NightIntents
  import opened NightStages
  import opened NightResolution
  import opened Records

  /** What this player has stored for the action in the current phase. */
  predicate HasStored(s: GameState, u: UserId, a: ActionId, choice: Choice) {
    && IsAlive(s, u) && s.phase.Some?
    && var row := s.players[u].phaseState;
       row.phaseId == Some(s.phase.value.id) && a in row.actions && row.actions[a] == choice
  }

  /** A living holder of the role has taken the action on somebody alive. */
  predicate Takes(s: GameState, u: UserId, role: RoleId, a: ActionId, v: UserId) {
    s.players.Keys >= {u} && s.players[u].role == Some(role) && HasStored(s, u, a, On(v)) && IsAlive(s, v)
  }

  ghost predicate AtNight(s: GameState) { WellFormed(s) && SingleHolders(s) && s.phase.Some? && s.phase.value.kind == NightTime }

  lemma TakenIsIntended(s: GameState, u: UserId, role: RoleId, a: ActionId, v: UserId)
    requires s.phase.Some? && s.phase.value.kind == NightTime && Takes(s, u, role, a, v)
    requires role != Drunk && a in ActionsOf(role) && NightAction(a) && TargetOf(a).OneTarget? && Available(s, s.players[u], a)
    ensures IntentOf(s, u, a) == Some(Intent(u, On(v), false))
  {
  }

  lemma RealIntentOf(s: GameState, u: UserId, role: RoleId, a: ActionId, v: UserId)
    requires AtNight(s) && Takes(s, u, role, a, v)
    requires role != Drunk && a in ActionsOf(role) && a != WolfAttack && NightAction(a) && TargetOf(a).OneTarget? && Available(s, s.players[u], a)
    ensures Acting(s, a) == Some((u, v))
  {
    hide IntentOf, Takes, ActionsOf, Available, FrozenIntents, SingleHolders;
    TakenIsIntended(s, u, role, a, v);
    assert u in s.players by { TakersPlay(s, u, role, a, v); }
    var i :| 0 <= i < |s.roster| && s.roster[i] == u;
    FrozenHas(s, u, a, i);
    OneRealIntent(s, a, Intent(u, On(v), false), Intent(u, On(v), false));
  }

  lemma TakersPlay(s: GameState, u: UserId, role: RoleId, a: ActionId, v: UserId)
    requires Takes(s, u, role, a, v)
    ensures u in s.players
  {
  }

  lemma FrozenHas(s: GameState, u: UserId, a: ActionId, i: nat)
    requires i < |s.roster| && s.roster[i] == u && IntentOf(s, u, a).Some?
    ensures IntentOf(s, u, a).value in FrozenIntents(s, a)
  {
    hide IntentOf;
    StoredIntentIsFrozen(s, a, |s.roster|, i);
  }

  lemma ActorHasTaken(s: GameState, a: ActionId)
    requires Acting(s, a).Some? && a != WolfAttack && TargetOf(a).OneTarget?
    ensures Takes(s, Acting(s, a).value.0, OwnerOf(a), a, Acting(s, a).value.1)
    ensures Available(s, s.players[Acting(s, a).value.0], a)
  {
    hide Declared, PerceivedRole, Available;
    RealIntentIs(s, a);
  }

  /** Whoever acts tonight is the living holder of the role who has stored the action
      on a living player, and every such holder acts. */
  lemma ActingExactly(s: GameState, u: UserId, v: UserId)
    requires AtNight(s)
    ensures Acting(s, HarlotVisit) == Some((u, v)) <==> Takes(s, u, Harlot, HarlotVisit, v)
    ensures Acting(s, SerialKillerVisit) == Some((u, v)) <==> Takes(s, u, SerialKiller, SerialKillerVisit, v)
    ensures Acting(s, PriestProtect) == Some((u, v)) <==> Takes(s, u, Priest, PriestProtect, v)
    ensures Acting(s, CultConvert) == Some((u, v)) <==> Takes(s, u, CultLeader, CultConvert, v)
    ensures Acting(s, LoneWolfSearch) == Some((u, v)) <==> Takes(s, u, LoneWolf, LoneWolfSearch, v)
    ensures Acting(s, GuardianBond) == Some((u, v)) <==>
              Takes(s, u, Guardian, GuardianBond, v) && s.day == 1
              && !(s.players[u].roleState.Protegee? && s.players[u].roleState.protegee.Some?)
  {
    hide Acting, Takes, AtNight;
    OneActs(s, u, Harlot, HarlotVisit, v);
    OneActs(s, u, SerialKiller, SerialKillerVisit, v);
    OneActs(s, u, Priest, PriestProtect, v);
    OneActs(s, u, CultLeader, CultConvert, v);
    OneActs(s, u, LoneWolf, LoneWolfSearch, v);
    OneActs(s, u, Guardian, GuardianBond, v);
    if Takes(s, u, Guardian, GuardianBond, v) { TakersPlay(s, u, Guardian, GuardianBond, v); }
  }

  lemma OneActs(s: GameState, u: UserId, role: RoleId, a: ActionId, v: UserId)
    requires AtNight(s) && role != Drunk && a in ActionsOf(role) && a != WolfAttack && NightAction(a) && TargetOf(a).OneTarget?
    ensures Takes(s, u, role, a, v) ==> u in s.players
    ensures Acting(s, a) == Some((u, v)) <==> Takes(s, u, role, a, v) && Available(s, s.players[u], a)
  {
    hide Acting, Takes, AtNight, Available;
    ActionHasOneOwner(role, a);
    if Acting(s, a) == Some((u, v)) { ActorHasTaken(s, a); }
    if Takes(s, u, role, a, v) {
      TakersPlay(s, u, role, a, v);
      if Available(s, s.players[u], a) { RealIntentOf(s, u, role, a, v); }
    }
  }

  // ---- Houses ----

  /** A living player who is of the role, or drunk enough to believe so, has taken the
      action on somebody alive. */
  predicate SetsOut(s: GameState, u: UserId, role: RoleId, a: ActionId, v: UserId) {
    && u in s.players && HasStored(s, u, a, On(v)) && IsAlive(s, v)
    && TakesThemselvesFor(s.players[u], role)
  }

  predicate WalksOut(s: GameState, u: UserId, v: UserId) {
    || SetsOut(s, u, Harlot, HarlotVisit, v) || SetsOut(s, u, SerialKiller, SerialKillerVisit, v)
    || SetsOut(s, u, Detective, DetectiveInvestigate, v) || SetsOut(s, u, CultLeader, CultConvert, v)
    || SetsOut(s, u, LoneWolf, LoneWolfSearch, v)
  }

  lemma SettingOutIsWalking(s: GameState, u: UserId, role: RoleId, a: ActionId, v: UserId)
    requires s.phase.Some? && s.phase.value.kind == NightTime && TravelActionOf(role) == Some(a)
    ensures SetsOut(s, u, role, a, v) ==> WalksTo(s, u) == Some(v)
  {
    hide WellFormed;
  }

  lemma WalkingIsSettingOut(s: GameState, u: UserId, v: UserId)
    requires s.phase.Some? && s.phase.value.kind == NightTime && WalksTo(s, u) == Some(v)
    ensures WalksOut(s, u, v)
  {
    hide WellFormed, Declared, InSeason;
  }

  /** Where a living player spends the night: at the house they have set out for; the
      pack otherwise at the house it hunts in, and everyone else at home. */
  lemma WhereTheySleep(s: GameState, wolfTarget: Option<UserId>, u: UserId)
    requires s.phase.Some? && s.phase.value.kind == NightTime && IsAlive(s, u)
    ensures forall v: UserId :: WalksOut(s, u, v) ==> Location(s, wolfTarget, u) == v
    ensures (forall v: UserId :: !WalksOut(s, u, v)) ==>
              Location(s, wolfTarget, u) == if wolfTarget.Some? && OfThePack(s.players[u]) then wolfTarget.value else u
  {
    hide WalksTo, SetsOut;
    forall v: UserId | WalksOut(s, u, v) ensures WalksTo(s, u) == Some(v) {
      SettingOutIsWalking(s, u, Harlot, HarlotVisit, v);
      SettingOutIsWalking(s, u, SerialKiller, SerialKillerVisit, v);
      SettingOutIsWalking(s, u, Detective, DetectiveInvestigate, v);
      SettingOutIsWalking(s, u, CultLeader, CultConvert, v);
      SettingOutIsWalking(s, u, LoneWolf, LoneWolfSearch, v);
    }
    if WalksTo(s, u).Some? {
      WalkingIsSettingOut(s, u, WalksTo(s, u).value);
    }
  }

  // ---- The pack's ballot ----

  /** A living member of the pack, or a drunk who takes themselves for a werewolf, has
      voted to hunt somebody alive. */
  predicate Hunts(s: GameState, u: UserId, v: UserId) {
    && u in s.players && HasStored(s, u, WolfAttack, On(v)) && IsAlive(s, v)
    && (OfThePack(s.players[u]) || TakesThemselvesFor(s.players[u], Werewolf))
  }

  function HuntersOf(s: GameState, v: UserId): set<UserId> { set u | u in s.players && Hunts(s, u, v) }

  function HuntersAmong(s: GameState, v: UserId, n: nat): set<UserId>
    requires n <= |s.roster|
  {
    set u | u in s.roster[..n] && Hunts(s, u, v)
  }

  lemma HuntingIsIntended(s: GameState, u: UserId, v: UserId)
    requires s.phase.Some? && s.phase.value.kind == NightTime
    ensures Hunts(s, u, v) <==> IntentOf(s, u, WolfAttack).Some? && IntentOf(s, u, WolfAttack).value.choice == On(v)
  {
    hide WellFormed;
  }

  lemma OneHunterMore(s: GameState, v: UserId, n: nat)
    requires n < |s.roster| && Distinct(s.roster)
    ensures |HuntersAmong(s, v, n + 1)| == |HuntersAmong(s, v, n)| + if Hunts(s, s.roster[n], v) then 1 else 0
  {
    hide Hunts;
    assert s.roster[..n + 1] == s.roster[..n] + [s.roster[n]];
    if Hunts(s, s.roster[n], v) {
      assert HuntersAmong(s, v, n + 1) == HuntersAmong(s, v, n) + {s.roster[n]};
    } else {
      assert HuntersAmong(s, v, n + 1) == HuntersAmong(s, v, n);
    }
  }

  lemma TargetsSnoc(intents: seq<Intent>, intent: Intent)
    ensures Targets(intents + [intent]) == Targets(intents) + if intent.choice.On? then [intent.choice.target] else []
  {
    assert (intents + [intent])[..|intents|] == intents;
  }

  lemma CountSnoc(votes: seq<UserId>, vote: UserId, target: UserId)
    ensures Count(votes + [vote], target) == Count(votes, target) + if vote == target then 1 else 0
  {
    assert (votes + [vote])[..|votes|] == votes;
  }

  lemma {:induction false} BallotCounts(s: GameState, v: UserId, n: nat)
    requires n <= |s.roster| && Distinct(s.roster) && s.phase.Some? && s.phase.value.kind == NightTime
    ensures Count(Targets(IntentsUpTo(s, WolfAttack, n)), v) == |HuntersAmong(s, v, n)|
  {
    hide IntentOf, Hunts, Count, Targets;
    if n == 0 {
      NobodyHunts(s, v);
    } else {
      var u, before := s.roster[n - 1], IntentsUpTo(s, WolfAttack, n - 1);
      var intent := IntentOf(s, u, WolfAttack);
      BallotCounts(s, v, n - 1);
      OneHunterMore(s, v, n - 1);
      HuntingIsIntended(s, u, v);
      if intent.Some? {
        TargetsSnoc(before, intent.value);
        if intent.value.choice.On? { CountSnoc(Targets(before), intent.value.choice.target, v); }
        else { assert Targets(before) + [] == Targets(before); }
      } else {
        assert before + [] == before;
      }
    }
  }

  lemma NobodyHunts(s: GameState, v: UserId)
    ensures Count(Targets([]), v) == 0 == |HuntersAmong(s, v, 0)|
  {
    assert HuntersAmong(s, v, 0) == {};
  }

  /** The pack hunts whomever strictly the most of its living members have named, and
      nobody on a tie. */
  lemma TheBallot(s: GameState, v: UserId)
    requires WellFormed(s) && s.phase.Some? && s.phase.value.kind == NightTime
    ensures WolfTarget(s) == Some(v) <==>
            HuntersOf(s, v) != {} && forall w: UserId :: w != v ==> |HuntersOf(s, w)| < |HuntersOf(s, v)|
  {
    hide Hunts, Count, Targets, FrozenIntents;
    forall w: UserId ensures Count(Targets(FrozenIntents(s, WolfAttack)), w) == |HuntersOf(s, w)| { BallotIsHunters(s, w); }
    if WolfTarget(s) == Some(v) { assert Leads(Targets(FrozenIntents(s, WolfAttack)), v); }
    else if HuntersOf(s, v) != {} && forall w: UserId :: w != v ==> |HuntersOf(s, w)| < |HuntersOf(s, v)| {
      PluralityIs(Targets(FrozenIntents(s, WolfAttack)), v);
    }
  }

  lemma BallotIsHunters(s: GameState, w: UserId)
    requires WellFormed(s) && s.phase.Some? && s.phase.value.kind == NightTime
    ensures Count(Targets(FrozenIntents(s, WolfAttack)), w) == |HuntersOf(s, w)|
  {
    hide Hunts, Count, Targets, IntentsUpTo;
    BallotCounts(s, w, |s.roster|);
    assert s.roster[..|s.roster|] == s.roster;
    assert HuntersAmong(s, w, |s.roster|) == HuntersOf(s, w);
  }

  // ---- The cupid ----

  /** A living, still unlinked cupid has named two living players on the first night. */
  predicate Bonds(s: GameState, u: UserId, a: UserId, b: UserId) {
    && HasStored(s, u, CupidLink, OnPair(a, b)) && IsAlive(s, a) && IsAlive(s, b)
    && u in s.players && s.players[u].role == Some(Cupid) && s.players[u].roleState == Linked(None) && s.day == 1
  }

  lemma BondIsIntended(s: GameState, u: UserId, a: UserId, b: UserId)
    requires s.phase.Some? && s.phase.value.kind == NightTime && Bonds(s, u, a, b)
    ensures IntentOf(s, u, CupidLink) == Some(Intent(u, OnPair(a, b), false))
  {
  }

  /** A pair is bonded tonight exactly when such a cupid has named it. */
  lemma BondingExactly(s: GameState, u: UserId, a: UserId, b: UserId)
    requires AtNight(s)
    ensures NewLink(s) == Some((u, (a, b))) <==> Bonds(s, u, a, b)
  {
    hide FrozenIntents, SingleHolders, WellFormed;
    if Bonds(s, u, a, b) {
      BondIsIntended(s, u, a, b);
      InRoster(s, u);
      var i :| 0 <= i < |s.roster| && s.roster[i] == u;
      FrozenHas(s, u, CupidLink, i);
      OneRealIntent(s, CupidLink, Intent(u, OnPair(a, b), false), Intent(u, OnPair(a, b), false));
    }
    if NewLink(s) == Some((u, (a, b))) {
      RealIntentIs(s, CupidLink);
      BondIsStored(s, u, a, b);
    }
  }

  lemma InRoster(s: GameState, u: UserId)
    requires WellFormed(s) && u in s.players
    ensures exists i :: 0 <= i < |s.roster| && s.roster[i] == u
  {
  }

  lemma BondIsStored(s: GameState, u: UserId, a: UserId, b: UserId)
    requires IntentOf(s, u, CupidLink).Some? && IntentOf(s, u, CupidLink).value.choice == OnPair(a, b)
    requires Holds(s, u, Cupid) && s.players[u].roleState == Linked(None)
    ensures Bonds(s, u, a, b)
  {
  }
}
