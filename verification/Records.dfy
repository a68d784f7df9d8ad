/** What can be read off a player's record, in the words of the rules. */
module Records {
  import opened Wrappers
  import opened Roles
  import opened GameState

  const WOLF_CHAT_ROLES: set<RoleId> := {Werewolf, AlphaWolf, Cub}
  const CULT_CHAT_ROLES: set<RoleId> := {CultLeader, Cultist}

  predicate HasOneOf(role: Option<RoleId>, roles: set<RoleId>) { role.Some? && role.value in roles }

  predicate OfThePack(p: Player) { p.role == Some(Werewolf) || p.role == Some(AlphaWolf) || p.role == Some(Cub) }

  /** What a player takes themselves for: the drunk for somebody else. */
  predicate TakesThemselvesFor(p: Player, role: RoleId) {
    (p.role == Some(role) && role != Drunk) || (p.role == Some(Drunk) && p.roleState == Believes(Some(role)))
  }
}
