/** The role registry and the actions roles declare
    (packages/game-engine/src/roles, packages/protocol/src/enums.ts). */
module Roles {
  import opened Wrappers

  datatype RoleId =
    | Villager | Werewolf | Mason | Seer | Cursed | Harlot | Hunter | Princess | Veteran | SerialKiller | AlphaWolf
    | Drunk | Mayor | Cupid | Priest | Guardian | Cub | Sorcerer | Detective | CultLeader | Cultist | LoneWolf

  datatype FactionId = VillageFaction | WolvesFaction | VeteranFaction | SerialKillerFaction | CultFaction | LoneWolfFaction

  datatype Channel = PublicChannel | WolvesChannel | GraveChannel | CultChannel

  function StartingFaction(role: RoleId): FactionId {
    match role
    case Werewolf | AlphaWolf | Cub | Sorcerer => WolvesFaction
    case Veteran => VeteranFaction
    case SerialKiller => SerialKillerFaction
    case CultLeader | Cultist => CultFaction
    case LoneWolf => LoneWolfFaction
    case _ => VillageFaction
  }

  /** The pack: a seat in the wolf ballot and the nightly hunt. The sorcerer is
      of the wolves' faction but not of the pack. */
  predicate InPack(role: RoleId) { role.Werewolf? || role.AlphaWolf? || role.Cub? }

  predicate InWolfChat(role: RoleId) { role.Werewolf? || role.AlphaWolf? || role.Cub? }

  predicate InCultChat(role: RoleId) { role.CultLeader? || role.Cultist? }

  // ---- How the composer may deal a role ----

  /** `villager`, `werewolf` and `cultist` have no composition: they are never drawn. */
  predicate Dealt(role: RoleId) { !role.Villager? && !role.Werewolf? && !role.Cultist? }

  function MinimumPlayers(role: RoleId): nat {
    match role
    case AlphaWolf | LoneWolf => 10
    case CultLeader => 9
    case Mason | Mayor | Cupid | Sorcerer => 8
    case Hunter | Drunk | Priest | Guardian | Cub | Detective => 7
    case Cursed => 6
    case _ => 0
  }

  function MaximumCopies(role: RoleId): nat { if role.Mason? then 2 else 1 }

  predicate DrunkMayBelieve(role: RoleId) { role.Seer? || role.Cupid? || role.Priest? || role.Guardian? || role.Detective? }

  /** At most one player at a time really holds such a role. */
  predicate SingleCopy(role: RoleId) { Dealt(role) && MaximumCopies(role) == 1 }

  // ---- Actions ----

  datatype ActionId =
    | WolfAttack | SeerInspect | HarlotVisit | HarlotStay | SerialKillerVisit | SerialKillerStay | MayorReveal
    | MayorPardon | CupidLink | PriestProtect | GuardianBond | SorcererDivine | DetectiveInvestigate | CultConvert | LoneWolfSearch

  datatype TargetSpec = NoTarget | OneTarget(all: bool, excludeSelf: bool) | PairTarget

  predicate NightAction(a: ActionId) { !a.MayorReveal? && !a.MayorPardon? }

  function TargetOf(a: ActionId): TargetSpec {
    match a
    case HarlotStay | SerialKillerStay | MayorPardon => NoTarget
    case CupidLink => PairTarget
    case PriestProtect => OneTarget(true, false)
    case GuardianBond => OneTarget(true, true)
    case _ => OneTarget(false, true)
  }

  predicate TravelsToTarget(a: ActionId) {
    a.HarlotVisit? || a.SerialKillerVisit? || a.DetectiveInvestigate? || a.CultConvert? || a.LoneWolfSearch?
  }

  /** The actions declared by a role, in order. */
  function ActionsOf(role: RoleId): seq<ActionId> {
    match role
    case Werewolf => [WolfAttack]
    case Seer => [SeerInspect]
    case Harlot => [HarlotVisit, HarlotStay]
    case SerialKiller => [SerialKillerVisit, SerialKillerStay]
    case Mayor => [MayorReveal, MayorPardon]
    case Cupid => [CupidLink]
    case Priest => [PriestProtect]
    case Guardian => [GuardianBond]
    case Sorcerer => [SorcererDivine]
    case Detective => [DetectiveInvestigate]
    case CultLeader => [CultConvert]
    case LoneWolf => [LoneWolfSearch]
    case _ => []
  }

  /** The one role that declares an action. */
  function OwnerOf(a: ActionId): RoleId {
    match a
    case WolfAttack => Werewolf
    case SeerInspect => Seer
    case HarlotVisit => Harlot
    case HarlotStay => Harlot
    case SerialKillerVisit => SerialKiller
    case SerialKillerStay => SerialKiller
    case MayorReveal => Mayor
    case MayorPardon => Mayor
    case CupidLink => Cupid
    case PriestProtect => Priest
    case GuardianBond => Guardian
    case SorcererDivine => Sorcerer
    case DetectiveInvestigate => Detective
    case CultConvert => CultLeader
    case LoneWolfSearch => LoneWolf
  }
}
