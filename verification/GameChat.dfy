/** Who may read and speak in a game's channels, and whom they may mention
    (packages/game-engine/src/chat.ts, commands/validate.ts). */
module GameChat {
  import opened Wrappers
  import opened Roles
  import opened GameState
  import opened ChatTypes
  import opened MentionRanges

  predicate ChatRole(role: Option<RoleId>, channel: Channel) {
    role.Some? && if channel.WolvesChannel? then InWolfChat(role.value) else InCultChat(role.value)
  }

  /** Secret channels belong to the role, and to converts only from their marker on. */
  predicate Entitled(p: Player, channel: Channel) {
    match channel
    case PublicChannel => true
    case GraveChannel => p.status == Dead
    case _ => ChatRole(p.role, channel) && (ChatRole(p.originalRole, channel) || channel in p.channelSince)
  }

  function AvailableChannels(p: Player): set<Channel> {
    set channel: Channel | Entitled(p, channel)
  }

  // ---- Mentions ----

  predicate Known(s: GameState, actor: UserId, channel: Channel, target: UserId) {
    && actor in s.players && target in s.players && target != actor
    && Entitled(s.players[actor], channel)
    && var a, t := s.players[actor], s.players[target];
      match channel
      case PublicChannel => t.status == Alive || t.status == Dead
      case GraveChannel => t.status == Dead
      case _ =>
        && t.status != InLobby && t.status != Spectator && Entitled(t, channel)
        && (ChatRole(a.originalRole, channel)
            || (channel in a.channelSince && !ChatRole(t.originalRole, channel)
                && channel in t.channelSince && t.channelSince[channel] >= a.channelSince[channel]))
  }

  // ---- The check ----

  predicate NamesKnown(s: GameState, actor: UserId, channel: Channel, text: Text, m: ChatMention) {
    && InText(text, m) && Known(s, actor, channel, m.userId)
    && Covered(text, m) == [AT] + s.players[m.userId].displayName
  }

  /** Every mention lies in the text, no two overlap, few enough people are
      named, and each range spells the current label of somebody the actor may
      mention. */
  ghost predicate ValidMentions(s: GameState, actor: UserId, channel: Channel, text: Text, mentions: seq<ChatMention>) {
    && |Recipients(mentions)| <= CHAT_MAX_MENTION_RECIPIENTS
    && AllApart(mentions)
    && forall m :: m in mentions ==> NamesKnown(s, actor, channel, text, m)
  }

  /** The check over a sorted copy decides exactly that. */
  method ValidateChatMentions(s: GameState, actor: UserId, channel: Channel, text: Text, mentions: seq<ChatMention>)
    returns (error: Option<ErrorCode>)
    ensures error == if ValidMentions(s, actor, channel, text, mentions) then None else Some(InvalidMention)
  {
    hide Known, AllApart;
    if |Recipients(mentions)| > CHAT_MAX_MENTION_RECIPIENTS { return Some(InvalidMention); }
    var sorted := SortedRanges(text, mentions, false);
    if sorted.None? { return Some(InvalidMention); }
    for i := 0 to |mentions|
      invariant forall k :: 0 <= k < i ==> NamesKnown(s, actor, channel, text, mentions[k])
    {
      assert mentions[i] in mentions;
      if !NamesKnown(s, actor, channel, text, mentions[i]) { return Some(InvalidMention); }
    }
    return None;
  }
}
