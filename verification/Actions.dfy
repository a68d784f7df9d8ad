/** Which actions a player may take and whom they may target
    (packages/game-engine/src/roles/action-spec.ts, targets.ts). */
module Actions {
  import opened Wrappers
  import opened Roles
  import opened Slices
  import opened GameState

  /** The conditions some specs put on being offered at all. */
  predicate Available(s: GameState, p: Player, a: ActionId) {
    match a
    case CupidLink =>
      && s.day == 1 && PerceivedRole(p) == Some(Cupid)
      && (p.role == Some(Drunk) || p.roleState == Linked(None))
    case GuardianBond => s.day == 1 && !(p.roleState.Protegee? && p.roleState.protegee.Some?)
    case MayorReveal | MayorPardon => p.roleState.MayorState? && !p.roleState.used
    case _ => true
  }

  /** The specs a player reaches: the attack by membership of the pack, the
      rest by what they believe they are. */
  function Declared(p: Player): seq<ActionId> {
    (if p.role.Some? && InPack(p.role.value) then ActionsOf(Werewolf) else [])
    + (if PerceivedRole(p).Some? then ActionsOf(PerceivedRole(p).value) else [])
  }

  /** Right for the phase, and available. */
  predicate InSeason(s: GameState, p: Player, a: ActionId) {
    s.phase.Some? && (NightAction(a) <==> s.phase.value.kind == NightTime) && Available(s, p, a)
  }

  predicate Offered(s: GameState, p: Player, a: ActionId) {
    p.status == Alive && s.phase.Some? && a in Declared(p) && InSeason(s, p, a)
  }

  /** The offered actions among the first `n` declared, each where it first occurs. */
  function OfferedUpTo(s: GameState, p: Player, n: nat): (specs: seq<ActionId>)
    requires n <= |Declared(p)|
    ensures forall a :: a in specs <==> a in Declared(p)[..n] && Offered(s, p, a)
  {
    if n == 0 then []
    else
      var a := Declared(p)[n - 1];
      assert Declared(p)[..n] == Declared(p)[..n - 1] + [a];
      OfferedUpTo(s, p, n - 1) + (if a !in Declared(p)[..n - 1] && Offered(s, p, a) then [a] else [])
  }

  function OfferedList(s: GameState, p: Player): seq<ActionId> { OfferedUpTo(s, p, |Declared(p)|) }

  /** The offered actions, each once. */
  method GetActionSpecsFor(s: GameState, p: Player) returns (specs: seq<ActionId>)
    ensures specs == OfferedList(s, p)
    ensures Distinct(specs)
    ensures forall a :: a in specs <==> Offered(s, p, a)
  {
    hide Declared, InSeason;
    specs := [];
    var declared := Declared(p);
    if p.status != Alive || s.phase.None? {
      NothingOffered(s, p, |declared|);
      return;
    }
    var seen: set<ActionId> := {};
    for i := 0 to |declared|
      invariant Distinct(specs) && specs == OfferedUpTo(s, p, i)
      invariant forall a :: a in seen <==> a in declared[..i]
    {
      var spec := declared[i];
      assert declared[..i + 1] == declared[..i] + [spec];
      if spec !in seen {
        seen := seen + {spec};
        if InSeason(s, p, spec) {
          specs := specs + [spec];
        }
      }
    }
  }

  lemma {:induction false} NothingOffered(s: GameState, p: Player, n: nat)
    requires (p.status != Alive || s.phase.None?) && n <= |Declared(p)|
    ensures OfferedUpTo(s, p, n) == []
  {
    hide Declared, Available;
    if n > 0 { NothingOffered(s, p, n - 1); }
  }

  /** The enabled candidates of an action. */
  predicate Eligible(s: GameState, u: UserId, a: ActionId, target: UserId) {
    && u in s.players && target in s.players && s.players[target].status == Alive
    && match TargetOf(a) {
      case NoTarget => false
      case PairTarget => true
      case OneTarget(all, excludeSelf) => (target != u || (all && !excludeSelf))
    }
    && match a {
      case WolfAttack => !IsPackMember(s, target)
      case PriestProtect =>
        !(s.players[u].roleState.LastProtected? && s.players[u].roleState.last == Some(target))
      case _ => true
    }
  }

  /** The roster with an enabled flag each; the actor is absent from a pool of others. */
  function ResolveTargets(s: GameState, u: UserId, a: ActionId): (targets: seq<(UserId, bool)>)
    requires WellFormed(s)
    ensures forall v: UserId :: (v, true) in targets <==> Eligible(s, u, a, v)
  {
    ResolveTargetsFrom(s, u, a, 0)
  }

  function ResolveTargetsFrom(s: GameState, u: UserId, a: ActionId, i: nat): (targets: seq<(UserId, bool)>)
    requires WellFormed(s) && i <= |s.roster|
    ensures forall v: UserId :: (v, true) in targets <==> Eligible(s, u, a, v) && v in s.roster[i..]
    decreases |s.roster| - i
  {
    if i == |s.roster| || TargetOf(a).NoTarget? then []
    else
      var rest := ResolveTargetsFrom(s, u, a, i + 1);
      var target := s.roster[i];
      if TargetOf(a).OneTarget? && !TargetOf(a).all && target == u then rest
      else [(target, Eligible(s, u, a, target))] + rest
  }
}
