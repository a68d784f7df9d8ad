/** What everybody does at night and where it puts them
    (resolution/night/freeze.ts, locations.ts). */
module NightIntents {
  import opened Wrappers
  import opened Roles
  import opened Slices
  import opened GameState
  import opened Actions

  /** `actor` is who stored the action; `mimicked` when their real role is not
      the one they acted as. */
  datatype Intent = Intent(actor: UserId, choice: Choice, mimicked: bool)

  type Frozen = map<ActionId, seq<Intent>>

  // ---- One player's intent ----

  function StoredAction(s: GameState, p: Player, a: ActionId): Option<Choice> {
    if s.phase.Some? && p.phaseState.phaseId == Some(s.phase.value.id) && a in p.phaseState.actions
    then Some(p.phaseState.actions[a]) else None
  }

  /** An intent whose required target is missing or dead is dropped. */
  function BuildIntent(s: GameState, u: UserId, p: Player, a: ActionId, stored: Choice): Option<Intent> {
    var mimicked := PerceivedRole(p) != p.role;
    match TargetOf(a)
    case NoTarget => Some(Intent(u, Bare, mimicked))
    case PairTarget =>
      if stored.OnPair? && IsAlive(s, stored.first) && IsAlive(s, stored.second)
      then Some(Intent(u, stored, mimicked)) else None
    case OneTarget(_, _) =>
      if stored.On? && IsAlive(s, stored.target) then Some(Intent(u, stored, mimicked)) else None
  }

  function IntentOf(s: GameState, u: UserId, a: ActionId): Option<Intent> {
    if u in s.players && NightAction(a) && Offered(s, s.players[u], a) && StoredAction(s, s.players[u], a).Some?
    then BuildIntent(s, u, s.players[u], a, StoredAction(s, s.players[u], a).value)
    else None
  }

  // ---- Everybody's intents ----

  function Listed(intent: Option<Intent>): seq<Intent> { if intent.Some? then [intent.value] else [] }

  function IntentsUpTo(s: GameState, a: ActionId, n: nat): seq<Intent>
    requires n <= |s.roster|
  {
    if n == 0 then []
    else IntentsUpTo(s, a, n - 1) + Listed(IntentOf(s, s.roster[n - 1], a))
  }

  /** The frozen intents of an action, in roster order. */
  function FrozenIntents(s: GameState, a: ActionId): seq<Intent> { IntentsUpTo(s, a, |s.roster|) }

  function IntentsFor(frozen: Frozen, a: ActionId): seq<Intent> { if a in frozen then frozen[a] else [] }

  ghost predicate Freezes(s: GameState, frozen: Frozen) {
    forall a :: IntentsFor(frozen, a) == FrozenIntents(s, a)
  }

  /** The player's intents for the first `j` of the actions are in. */
  ghost predicate Adds(s: GameState, u: UserId, before: Frozen, frozen: Frozen, specs: seq<ActionId>, j: nat)
    requires j <= |specs|
  {
    forall a :: IntentsFor(frozen, a) == IntentsFor(before, a) + if a in specs[..j] then Listed(IntentOf(s, u, a)) else []
  }

  lemma AddsNone(s: GameState, u: UserId, before: Frozen, specs: seq<ActionId>)
    ensures Adds(s, u, before, before, specs, 0)
  {
    hide IntentOf, IntentsFor;
  }

  lemma AddsOneMore(s: GameState, u: UserId, before: Frozen, frozen: Frozen, specs: seq<ActionId>, j: nat)
    requires Distinct(specs) && j < |specs| && Adds(s, u, before, frozen, specs, j)
    ensures var intent := IntentOf(s, u, specs[j]);
            Adds(s, u, before, if intent.Some? then frozen[specs[j] := IntentsFor(frozen, specs[j]) + [intent.value]] else frozen, specs, j + 1)
  {
    hide IntentOf;
    assert specs[..j + 1] == specs[..j] + [specs[j]];
    assert specs[j] !in specs[..j];
  }

  lemma AddsAll(s: GameState, u: UserId, before: Frozen, frozen: Frozen, specs: seq<ActionId>)
    requires Adds(s, u, before, frozen, specs, |specs|) && forall a :: a !in specs ==> IntentOf(s, u, a).None?
    ensures forall a :: IntentsFor(frozen, a) == IntentsFor(before, a) + Listed(IntentOf(s, u, a))
  {
    hide IntentOf, IntentsFor;
    assert specs[..|specs|] == specs;
  }

  /** One player's part of the freeze. */
  method FreezePlayer(s: GameState, u: UserId, before: Frozen) returns (frozen: Frozen)
    requires u in s.players
    ensures forall a :: IntentsFor(frozen, a) == IntentsFor(before, a) + Listed(IntentOf(s, u, a))
  {
    hide Offered, OfferedUpTo, OfferedList, Declared, BuildIntent, StoredAction, NightAction, IntentsUpTo, IntentOf, IntentsFor, Adds, Listed;
    frozen := before;
    var specs := GetActionSpecsFor(s, s.players[u]);
    AddsNone(s, u, before, specs);
    for j := 0 to |specs|
      invariant Adds(s, u, before, frozen, specs, j)
    {
      var spec := specs[j];
      assert spec in specs;
      ActsWhen(s, u, spec);
      AddsOneMore(s, u, before, frozen, specs, j);
      if NightAction(spec) {
        var stored := StoredAction(s, s.players[u], spec);
        if stored.Some? {
          var intent := BuildIntent(s, u, s.players[u], spec, stored.value);
          if intent.Some? { frozen := frozen[spec := IntentsFor(frozen, spec) + [intent.value]]; }
        }
      }
    }
    forall a | a !in specs ensures IntentOf(s, u, a).None? { ActsWhen(s, u, a); }
    AddsAll(s, u, before, frozen, specs);
  }

  lemma ActsWhen(s: GameState, u: UserId, a: ActionId)
    requires u in s.players
    ensures !Offered(s, s.players[u], a) || !NightAction(a) || StoredAction(s, s.players[u], a).None? ==> IntentOf(s, u, a).None?
    ensures Offered(s, s.players[u], a) && NightAction(a) && StoredAction(s, s.players[u], a).Some? ==>
              IntentOf(s, u, a) == BuildIntent(s, u, s.players[u], a, StoredAction(s, s.players[u], a).value)
  {
    hide Offered, BuildIntent, StoredAction;
  }

  ghost predicate FrozenTo(s: GameState, frozen: Frozen, n: nat)
    requires n <= |s.roster|
  {
    forall a :: IntentsFor(frozen, a) == IntentsUpTo(s, a, n)
  }

  lemma FrozenNone(s: GameState)
    ensures FrozenTo(s, map[], 0)
  {
  }

  lemma FrozenOneMore(s: GameState, before: Frozen, frozen: Frozen, i: nat)
    requires i < |s.roster| && FrozenTo(s, before, i)
    requires forall a :: IntentsFor(frozen, a) == IntentsFor(before, a) + Listed(IntentOf(s, s.roster[i], a))
    ensures FrozenTo(s, frozen, i + 1)
  {
    hide IntentOf, IntentsFor, Listed;
    forall a ensures IntentsFor(frozen, a) == IntentsUpTo(s, a, i + 1) {
      assert IntentsFor(before, a) == IntentsUpTo(s, a, i);
    }
  }

  lemma FrozenAll(s: GameState, frozen: Frozen)
    requires FrozenTo(s, frozen, |s.roster|)
    ensures Freezes(s, frozen)
  {
    hide IntentsUpTo, IntentsFor;
  }

  method FreezeNightIntents(s: GameState) returns (frozen: Frozen)
    requires WellFormed(s)
    ensures Freezes(s, frozen)
  {
    hide IntentOf, FrozenTo, IntentsFor, IntentsUpTo;
    frozen := map[];
    FrozenNone(s);
    for i := 0 to |s.roster|
      invariant FrozenTo(s, frozen, i)
    {
      var before := frozen;
      frozen := FreezePlayer(s, s.roster[i], before);
      FrozenOneMore(s, before, frozen, i);
    }
    FrozenAll(s, frozen);
  }

  function FirstReal(intents: seq<Intent>): (r: Option<Intent>)
    ensures r.Some? ==> r.value in intents && !r.value.mimicked
    ensures r.None? ==> forall i :: 0 <= i < |intents| ==> intents[i].mimicked
  {
    if intents == [] then None else if !intents[0].mimicked then Some(intents[0]) else FirstReal(intents[1..])
  }

  /** The intent that takes effect: that of a player who really holds the role. */
  function RealIntent(s: GameState, a: ActionId): Option<Intent> { FirstReal(FrozenIntents(s, a)) }

  // ---- Where intents come from ----

  lemma {:induction false} FrozenIntentIsStored(s: GameState, a: ActionId, n: nat, k: nat)
    requires n <= |s.roster| && k < |IntentsUpTo(s, a, n)|
    ensures exists i :: 0 <= i < n && IntentOf(s, s.roster[i], a) == Some(IntentsUpTo(s, a, n)[k])
  {
    hide IntentOf;
    if k < |IntentsUpTo(s, a, n - 1)| { FrozenIntentIsStored(s, a, n - 1, k); }
    else { assert IntentOf(s, s.roster[n - 1], a) == Some(IntentsUpTo(s, a, n)[k]); }
  }

  lemma IntentIsOfItsActor(s: GameState, u: UserId, a: ActionId)
    ensures IntentOf(s, u, a).Some? ==> IntentOf(s, u, a).value.actor == u && IsAlive(s, u) && NightAction(a)
    ensures IntentOf(s, u, a).Some? ==> (IntentOf(s, u, a).value.mimicked <==> PerceivedRole(s.players[u]) != s.players[u].role)
    ensures IntentOf(s, u, a).Some? ==> a in Declared(s.players[u])
    ensures IntentOf(s, u, a).Some? && TargetOf(a).OneTarget? ==>
              IntentOf(s, u, a).value.choice.On? && IsAlive(s, IntentOf(s, u, a).value.choice.target)
    ensures IntentOf(s, u, a).Some? && TargetOf(a).PairTarget? ==>
              IntentOf(s, u, a).value.choice.OnPair?
              && IsAlive(s, IntentOf(s, u, a).value.choice.first) && IsAlive(s, IntentOf(s, u, a).value.choice.second)
  {
    hide Declared, Available, PerceivedRole;
  }

  lemma ActionHasOneOwner(role: RoleId, a: ActionId)
    requires a in ActionsOf(role)
    ensures OwnerOf(a) == role
  {
  }

  /** Whoever acts for real as the owner of an action holds that role. */
  lemma RealActorHoldsTheRole(s: GameState, u: UserId, a: ActionId)
    requires IntentOf(s, u, a).Some? && !IntentOf(s, u, a).value.mimicked && a != WolfAttack
    ensures Holds(s, u, OwnerOf(a))
  {
    IntentIsOfItsActor(s, u, a);
    var p := s.players[u];
    assert a in ActionsOf(PerceivedRole(p).value);
    ActionHasOneOwner(PerceivedRole(p).value, a);
  }

  /** Everything the stages use of a real intent. */
  lemma RealIntentIs(s: GameState, a: ActionId)
    requires RealIntent(s, a).Some?
    ensures IntentOf(s, RealIntent(s, a).value.actor, a) == RealIntent(s, a)
    ensures IsAlive(s, RealIntent(s, a).value.actor)
    ensures a != WolfAttack ==> Holds(s, RealIntent(s, a).value.actor, OwnerOf(a))
    ensures TargetOf(a).OneTarget? ==> RealIntent(s, a).value.choice.On? && IsAlive(s, RealIntent(s, a).value.choice.target)
    ensures TargetOf(a).PairTarget? ==> RealIntent(s, a).value.choice.OnPair?
  {
    hide IntentOf, Holds, TargetOf;
    var intents := FrozenIntents(s, a);
    var k :| 0 <= k < |intents| && intents[k] == RealIntent(s, a).value;
    FrozenIntentIsStored(s, a, |s.roster|, k);
    var i :| 0 <= i < |s.roster| && IntentOf(s, s.roster[i], a) == Some(intents[k]);
    IntentIsOfItsActor(s, s.roster[i], a);
    if a != WolfAttack { RealActorHoldsTheRole(s, s.roster[i], a); }
  }

  // ---- Houses ----

  function TravelActionOf(role: RoleId): Option<ActionId> {
    match role
    case Harlot => Some(HarlotVisit)
    case SerialKiller => Some(SerialKillerVisit)
    case Detective => Some(DetectiveInvestigate)
    case CultLeader => Some(CultConvert)
    case LoneWolf => Some(LoneWolfSearch)
    case _ => None
  }

  /** The action, if any, that walks this player out of their house. */
  function Walk(s: GameState, u: UserId): Option<ActionId> {
    if u in s.players && PerceivedRole(s.players[u]).Some? then TravelActionOf(PerceivedRole(s.players[u]).value) else None
  }

  function WalksTo(s: GameState, u: UserId): Option<UserId> {
    if Walk(s, u).Some? && IntentOf(s, u, Walk(s, u).value).Some? && IntentOf(s, u, Walk(s, u).value).value.choice.On?
    then Some(IntentOf(s, u, Walk(s, u).value).value.choice.target) else None
  }

  /** Before anyone walks: the pack at the balloted house, the rest at home. */
  function Base(s: GameState, wolfTarget: Option<UserId>, u: UserId): UserId {
    if wolfTarget.Some? && IsPackMember(s, u) then wolfTarget.value else u
  }

  /** The house a player spends the night in: where their action walks them,
      whether or not the power is real; else with the pack; else at home. */
  function Location(s: GameState, wolfTarget: Option<UserId>, u: UserId): UserId {
    if WalksTo(s, u).Some? then WalksTo(s, u).value else Base(s, wolfTarget, u)
  }

  lemma TravellersWalk(s: GameState, u: UserId, a: ActionId)
    requires IntentOf(s, u, a).Some? && TravelsToTarget(a)
    ensures Walk(s, u) == Some(a) && IntentOf(s, u, a).value.choice.On?
  {
    IntentIsOfItsActor(s, u, a);
    var p := s.players[u];
    assert a in ActionsOf(PerceivedRole(p).value);
  }

  lemma {:induction false} StoredIntentIsFrozen(s: GameState, a: ActionId, n: nat, i: nat)
    requires i < n <= |s.roster| && IntentOf(s, s.roster[i], a).Some?
    ensures IntentOf(s, s.roster[i], a).value in IntentsUpTo(s, a, n)
  {
    hide IntentOf;
    if i < n - 1 { StoredIntentIsFrozen(s, a, n - 1, i); }
  }

  /** Everyone in `walked` is where they walked, everyone else where they began. */
  ghost predicate Placed(s: GameState, wolfTarget: Option<UserId>, locations: map<UserId, UserId>, walked: set<UserId>) {
    && locations.Keys == Living(s)
    && forall u :: u in locations ==>
         locations[u] == if u in walked then Location(s, wolfTarget, u) else Base(s, wolfTarget, u)
  }

  ghost predicate AllWalked(s: GameState, done: set<ActionId>, walked: set<UserId>) {
    forall a, intent :: a in done && TravelsToTarget(a) && intent in FrozenIntents(s, a) ==> intent.actor in walked
  }

  lemma FrozenIntentIsItsActors(s: GameState, a: ActionId, intent: Intent)
    requires intent in FrozenIntents(s, a)
    ensures IntentOf(s, intent.actor, a) == Some(intent) && IsAlive(s, intent.actor)
  {
    hide IntentOf;
    var k :| 0 <= k < |FrozenIntents(s, a)| && FrozenIntents(s, a)[k] == intent;
    FrozenIntentIsStored(s, a, |s.roster|, k);
    var i :| 0 <= i < |s.roster| && IntentOf(s, s.roster[i], a) == Some(intent);
    IntentIsOfItsActor(s, s.roster[i], a);
  }

  lemma TheRestStay(s: GameState, done: set<ActionId>, walked: set<UserId>, u: UserId)
    requires WellFormed(s) && AllWalked(s, done, walked)
    requires forall a :: FrozenIntents(s, a) != [] ==> a in done
    requires u in s.players
    ensures WalksTo(s, u).Some? ==> u in walked
  {
    hide IntentOf;
    if WalksTo(s, u).Some? {
      var a := Walk(s, u).value;
      assert TravelsToTarget(a);
      var i :| 0 <= i < |s.roster| && s.roster[i] == u;
      StoredIntentIsFrozen(s, a, |s.roster|, i);
      IntentIsOfItsActor(s, u, a);
    }
  }

  method WalkAll(s: GameState, a: ActionId, intents: seq<Intent>, wolfTarget: Option<UserId>, before: map<UserId, UserId>, ghost already: set<UserId>)
    returns (locations: map<UserId, UserId>, ghost walked: set<UserId>)
    requires intents == FrozenIntents(s, a) && TravelsToTarget(a)
    requires Placed(s, wolfTarget, before, already)
    ensures Placed(s, wolfTarget, locations, walked) && already <= walked
    ensures forall intent :: intent in FrozenIntents(s, a) ==> intent.actor in walked
  {
    hide FrozenIntents, IntentOf, Walk, TravelsToTarget, Base;
    locations, walked := before, already;
    for k := 0 to |intents|
      invariant Placed(s, wolfTarget, locations, walked) && already <= walked
      invariant forall j :: 0 <= j < k ==> intents[j].actor in walked
    {
      var intent := intents[k];
      FrozenIntentIsItsActors(s, a, intent);
      TravellersWalk(s, intent.actor, a);
      locations := locations[intent.actor := intent.choice.target];
      walked := walked + {intent.actor};
    }
  }

  method ResolveNightLocations(s: GameState, frozen: Frozen, wolfTarget: Option<UserId>)
    returns (locations: map<UserId, UserId>)
    requires WellFormed(s) && Freezes(s, frozen)
    ensures locations.Keys == Living(s)
    ensures forall u :: u in locations ==> locations[u] == Location(s, wolfTarget, u)
  {
    hide FrozenIntents, IntentOf, Walk, TravelsToTarget;
    locations := map u | u in Living(s) :: u;
    if wolfTarget.Some? {
      locations := map u | u in Living(s) :: if IsPackMember(s, u) then wolfTarget.value else u;
    }
    ghost var walked: set<UserId> := {};
    var left := frozen.Keys;
    while left != {}
      invariant left <= frozen.Keys
      invariant Placed(s, wolfTarget, locations, walked)
      invariant AllWalked(s, frozen.Keys - left, walked)
      decreases |left|
    {
      var a :| a in left;
      left := left - {a};
      if TravelsToTarget(a) {
        locations, walked := WalkAll(s, a, IntentsFor(frozen, a), wolfTarget, locations, walked);
      }
    }
    forall u | u in locations ensures locations[u] == Location(s, wolfTarget, u) {
      assert forall a :: FrozenIntents(s, a) == IntentsFor(frozen, a);
      TheRestStay(s, frozen.Keys, walked, u);
    }
  }

  // ---- One real actor per action ----

  /** At most one living player really holds each role dealt in one copy. */
  ghost predicate SingleHolders(s: GameState) {
    forall u, v, role :: SingleCopy(role) && IsAlive(s, u) && IsAlive(s, v) && Holds(s, u, role) && Holds(s, v, role) ==> u == v
  }

  /** So every action but the pack's attack has at most one intent that is not
      mimicked, and looking for the first of them loses none. */
  lemma OneRealIntent(s: GameState, a: ActionId, x: Intent, y: Intent)
    requires SingleHolders(s) && a != WolfAttack
    requires x in FrozenIntents(s, a) && y in FrozenIntents(s, a) && !x.mimicked && !y.mimicked
    ensures x == y && RealIntent(s, a) == Some(x)
  {
    hide IntentOf, FrozenIntents;
    FrozenIntentIsItsActors(s, a, x);
    FrozenIntentIsItsActors(s, a, y);
    RealActorHoldsTheRole(s, x.actor, a);
    RealActorHoldsTheRole(s, y.actor, a);
    RealIntentIs(s, a);
    assert SingleCopy(OwnerOf(a));
  }
}
