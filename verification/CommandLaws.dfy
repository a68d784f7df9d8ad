/** Who may do what and when, told from roles, statuses and the clock
    (packages/game-engine/src/commands, roles/action-spec.ts, chat.ts). */
module CommandLaws {
  import opened Wrappers
  import opened Roles
  import opened GameState
  import opened Actions
  import opened GameChat
  import opened MentionRanges
  import opened ChatTypes
  import opened Commands
  import opened Records

  // ---- Who may act ----

  predicate AtNight(s: GameState) { s.phase.Some? && s.phase.value.kind == NightTime }

  predicate ByDay(s: GameState) { s.phase.Some? && s.phase.value.kind != NightTime }

  /** The living player has this action to take now. */
  predicate MayAct(s: GameState, p: Player, a: ActionId) {
    && p.status == Alive
    && match a
       case WolfAttack => AtNight(s) && (OfThePack(p) || TakesThemselvesFor(p, Werewolf))
       case SeerInspect => AtNight(s) && TakesThemselvesFor(p, Seer)
       case HarlotVisit => AtNight(s) && TakesThemselvesFor(p, Harlot)
       case HarlotStay => AtNight(s) && TakesThemselvesFor(p, Harlot)
       case SerialKillerVisit => AtNight(s) && TakesThemselvesFor(p, SerialKiller)
       case SerialKillerStay => AtNight(s) && TakesThemselvesFor(p, SerialKiller)
       case PriestProtect => AtNight(s) && TakesThemselvesFor(p, Priest)
       case SorcererDivine => AtNight(s) && TakesThemselvesFor(p, Sorcerer)
       case DetectiveInvestigate => AtNight(s) && TakesThemselvesFor(p, Detective)
       case CultConvert => AtNight(s) && TakesThemselvesFor(p, CultLeader)
       case LoneWolfSearch => AtNight(s) && TakesThemselvesFor(p, LoneWolf)
       case CupidLink => AtNight(s) && s.day == 1 && TakesThemselvesFor(p, Cupid) && (p.role == Some(Drunk) || p.roleState == Linked(None))
       case GuardianBond =>
         AtNight(s) && s.day == 1 && TakesThemselvesFor(p, Guardian) && !(p.roleState.Protegee? && p.roleState.protegee.Some?)
       case MayorReveal => ByDay(s) && TakesThemselvesFor(p, Mayor) && p.roleState.MayorState? && !p.roleState.used
       case MayorPardon => ByDay(s) && TakesThemselvesFor(p, Mayor) && p.roleState.MayorState? && !p.roleState.used
  }

  /** An action is offered exactly to those who may take it now. */
  lemma WhoMayAct(s: GameState, p: Player, a: ActionId)
    ensures Offered(s, p, a) <==> MayAct(s, p, a)
  {
    hide MayAct;
    if a in Declared(p) { DeclaredIs(p, a); }
    MayActIs(s, p, a);
  }

  lemma DeclaredIs(p: Player, a: ActionId)
    ensures a in Declared(p) <==> (if a == WolfAttack then OfThePack(p) || TakesThemselvesFor(p, Werewolf) else TakesThemselvesFor(p, OwnerOf(a)))
  {
    hide ActionsOf, OwnerOf;
    OwnersAct(Werewolf, a);
    if PerceivedRole(p).Some? { OwnersAct(PerceivedRole(p).value, a); }
    OwnersAct(Drunk, a);
  }

  lemma OwnersAct(role: RoleId, a: ActionId)
    ensures a in ActionsOf(role) <==> OwnerOf(a) == role
    ensures OwnerOf(a) == Werewolf <==> a == WolfAttack
    ensures OwnerOf(a) != Drunk
  {
  }

  lemma MayActIs(s: GameState, p: Player, a: ActionId)
    ensures MayAct(s, p, a) <==>
            && p.status == Alive && s.phase.Some? && (NightAction(a) <==> s.phase.value.kind == NightTime)
            && a in Declared(p) && Available(s, p, a)
  {
    DeclaredIs(p, a);
  }

  /** Whom an action may name. */
  predicate MayName(s: GameState, u: UserId, a: ActionId, v: UserId) {
    && u in s.players && IsAlive(s, v)
    && match a
       case WolfAttack => v != u && !OfThePack(s.players[v])
       case PriestProtect => s.players[u].roleState != LastProtected(Some(v))
       case CupidLink => true
       case HarlotStay => false
       case SerialKillerStay => false
       case MayorPardon => false
       case _ => v != u
  }

  lemma WhomItMayName(s: GameState, u: UserId, a: ActionId, v: UserId)
    ensures Eligible(s, u, a, v) <==> MayName(s, u, a, v)
  {
  }

  /** The payload says what the action needs. */
  predicate Names(s: GameState, u: UserId, a: ActionId, choice: Choice) {
    match a
    case HarlotStay => true
    case SerialKillerStay => true
    case MayorPardon => true
    case CupidLink =>
      choice.OnPair? && choice.first != choice.second && IsAlive(s, choice.first) && IsAlive(s, choice.second)
    case _ => choice.On? && MayName(s, u, a, choice.target)
  }

  // ---- Who may speak ----

  /** Of the secret chat: by a role held from the start, or since being let in. */
  predicate IsIn(p: Player, channel: Channel, roles: set<RoleId>) {
    HasOneOf(p.role, roles) && (HasOneOf(p.originalRole, roles) || channel in p.channelSince)
  }

  predicate MayRead(p: Player, channel: Channel) {
    match channel
    case PublicChannel => true
    case GraveChannel => p.status == Dead
    case WolvesChannel => IsIn(p, WolvesChannel, WOLF_CHAT_ROLES)
    case CultChannel => IsIn(p, CultChannel, CULT_CHAT_ROLES)
  }

  lemma WhoMayRead(p: Player, channel: Channel)
    ensures Entitled(p, channel) <==> MayRead(p, channel)
  {
  }

  /** In public by day and in the secret chats at any time the living, among the dead
      the dead. */
  predicate MaySpeak(s: GameState, p: Player, channel: Channel) {
    if channel == GraveChannel then p.status == Dead
    else p.status == Alive && MayRead(p, channel) && (channel == PublicChannel ==> ByDay(s))
  }

  // ---- What is accepted ----

  predicate IsOpen(s: GameState, now: int) { s.phase.Some? && now < s.phase.value.endsAt }

  /** A command is accepted exactly when its sender is seated, the phase is open and the
      one it was meant for, and the sender may do what it asks now. */
  lemma AcceptedExactlyWhen(s: GameState, u: UserId, c: Command, now: int)
    ensures Refusal(s, u, c, now).None? <==>
            && u in s.players && IsOpen(s, now)
            && if c.body.ChatSend? then
                 && MaySpeak(s, s.players[u], c.body.channel)
                 && ValidMentions(s, u, c.body.channel, c.body.content.text, c.body.content.mentions)
               else
                 && c.phaseId == s.phase.value.id && s.players[u].status == Alive
                 && match c.body
                    case VoteSet(target) => s.phase.value.kind == Voting && IsAlive(s, target)
                    case VoteAbstain => s.phase.value.kind == Voting
                    case NightActionSet(a, choice) => AtNight(s) && MayAct(s, s.players[u], a) && Names(s, u, a, choice)
                    case DayActionSet(a, choice) => ByDay(s) && MayAct(s, s.players[u], a) && Names(s, u, a, choice)
                    case NightActionClear(_) => AtNight(s)
                    case _ => true
  {
    hide MayAct, Offered, ValidMentions, Names, PayloadError, MayRead, Entitled;
    if u in s.players {
      if c.body.NightActionSet? || c.body.DayActionSet? { PayloadIs(s, u, c.body.action, c.body.choice); }
      if c.body.ChatSend? { WhoMayRead(s.players[u], c.body.channel); OpenRooms(s.players[u]); }
    }
  }

  lemma OpenRooms(p: Player)
    ensures MayRead(p, PublicChannel)
    ensures MayRead(p, GraveChannel) <==> p.status == Dead
  {
  }

  lemma PayloadIs(s: GameState, u: UserId, a: ActionId, choice: Choice)
    requires u in s.players
    ensures PayloadError(s, u, a, choice) ==
            if !MayAct(s, s.players[u], a) then Some(ActionNotAvailable) else if !Names(s, u, a, choice) then Some(InvalidTarget) else None
  {
    hide MayAct, Offered, Eligible, MayName;
    WhoMayAct(s, s.players[u], a);
    if choice.On? { WhomItMayName(s, u, a, choice.target); }
    if choice.OnPair? {
      WhomItMayName(s, u, a, choice.first);
      WhomItMayName(s, u, a, choice.second);
      PairsName(s, u, choice);
    }
  }

  lemma PairsName(s: GameState, u: UserId, choice: Choice)
    requires u in s.players && choice.OnPair?
    ensures MayName(s, u, CupidLink, choice.first) <==> IsAlive(s, choice.first)
    ensures MayName(s, u, CupidLink, choice.second) <==> IsAlive(s, choice.second)
  {
  }

  /** What a refusal says of its reason. */
  lemma RefusedBecause(s: GameState, u: UserId, c: Command, now: int)
    requires Refusal(s, u, c, now).Some?
    ensures var error := Refusal(s, u, c, now).value;
            && (error == NotAMember <==> u !in s.players)
            && (u in s.players ==> (error == PhaseMismatch <==> s.phase.None? || (!c.body.ChatSend? && c.phaseId != s.phase.value.id)))
            && (error == PhaseClosed ==> !IsOpen(s, now))
            && (error == NotAlive ==> u in s.players && s.players[u].status != Alive && !c.body.ChatSend?)
            && (error == InvalidMention ==> c.body.ChatSend? && u in s.players && MaySpeak(s, s.players[u], c.body.channel))
            && (error == ChannelNotAvailable ==> c.body.ChatSend? && u in s.players && !MayRead(s.players[u], c.body.channel))
            && (error == ChatReadOnly ==> c.body.ChatSend? && u in s.players && MayRead(s.players[u], c.body.channel))
            && (error == InvalidTarget ==> c.body.VoteSet? || c.body.NightActionSet? || c.body.DayActionSet?)
  {
    hide Offered, Eligible, ValidMentions, MayRead, Entitled, PayloadError;
    if u in s.players {
      if c.body.NightActionSet? || c.body.DayActionSet? { PayloadIs(s, u, c.body.action, c.body.choice); }
      if c.body.ChatSend? { WhoMayRead(s.players[u], c.body.channel); OpenRooms(s.players[u]); }
    }
  }

  /** Whom a player may mention: themselves never; in public anybody who plays or has
      played, in the grave the dead; in a secret chat its other members, except that
      those who were let in may only mention those let in no earlier than they were. */
  lemma WhomOneMayMention(s: GameState, actor: UserId, channel: Channel, target: UserId)
    ensures Known(s, actor, channel, target) <==>
            && actor in s.players && target in s.players && target != actor && MayRead(s.players[actor], channel)
            && var a, t := s.players[actor], s.players[target];
            && (t.status == Alive || t.status == Dead)
            && (channel == GraveChannel ==> t.status == Dead)
            && (channel == WolvesChannel || channel == CultChannel ==>
                  var roles := if channel == WolvesChannel then WOLF_CHAT_ROLES else CULT_CHAT_ROLES;
                  && MayRead(t, channel)
                  && (HasOneOf(a.originalRole, roles)
                      || (!HasOneOf(t.originalRole, roles) && t.channelSince[channel] >= a.channelSince[channel])))
  {
    hide MayRead, Entitled;
    if actor in s.players && target in s.players {
      WhoMayRead(s.players[actor], channel);
      WhoMayRead(s.players[target], channel);
      SecretRooms(s.players[actor], channel);
      SecretRooms(s.players[target], channel);
      OpenRooms(s.players[target]);
    }
  }

  /** The mentions of a message are in order exactly when they name at most eight people,
      no two overlap, and each is a range of the text that spells an '@' and the current
      name of somebody the sender may mention there. */
  lemma WhatMayBeMentioned(s: GameState, actor: UserId, channel: Channel, text: Text, mentions: seq<ChatMention>)
    ensures ValidMentions(s, actor, channel, text, mentions) <==>
            && |set m | m in mentions :: m.userId| <= 8
            && (forall i, j :: 0 <= i < j < |mentions| ==>
                  || mentions[i].start + mentions[i].length <= mentions[j].start
                  || mentions[j].start + mentions[j].length <= mentions[i].start)
            && forall m :: m in mentions ==>
                 && 0 <= m.start && 0 < m.length && m.start + m.length <= |text|
                 && Known(s, actor, channel, m.userId) && m.userId in s.players
                 && text[m.start..m.start + m.length] == [AT] + s.players[m.userId].displayName
  {
    hide Known, NamesKnown;
    assert Recipients(mentions) == set m | m in mentions :: m.userId;
    forall m | m in mentions
      ensures NamesKnown(s, actor, channel, text, m) <==>
              && 0 <= m.start && 0 < m.length && m.start + m.length <= |text|
              && Known(s, actor, channel, m.userId) && m.userId in s.players
              && text[m.start..m.start + m.length] == [AT] + s.players[m.userId].displayName
    {
      NamingIs(s, actor, channel, text, m);
    }
  }

  lemma NamingIs(s: GameState, actor: UserId, channel: Channel, text: Text, m: ChatMention)
    ensures NamesKnown(s, actor, channel, text, m) <==>
            && 0 <= m.start && 0 < m.length && m.start + m.length <= |text|
            && Known(s, actor, channel, m.userId) && m.userId in s.players
            && text[m.start..m.start + m.length] == [AT] + s.players[m.userId].displayName
  {
    hide Known;
    KnownPlay(s, actor, channel, m.userId);
  }

  lemma KnownPlay(s: GameState, actor: UserId, channel: Channel, target: UserId)
    ensures Known(s, actor, channel, target) ==> target in s.players
  {
  }

  lemma SecretRooms(p: Player, channel: Channel)
    ensures channel == WolvesChannel && MayRead(p, channel) && !HasOneOf(p.originalRole, WOLF_CHAT_ROLES) ==> channel in p.channelSince
    ensures channel == CultChannel && MayRead(p, channel) && !HasOneOf(p.originalRole, CULT_CHAT_ROLES) ==> channel in p.channelSince
  {
  }

  // ---- The deadline ----

  function FullLength(s: GameState): nat
    requires s.phase.Some?
  {
    match s.phase.value.kind
    case Discussion => s.settings.discussionMs
    case Voting => s.settings.votingMs
    case NightTime => s.settings.nightMs
  }

  predicate IsReady(s: GameState, u: UserId) {
    && u in s.players && s.phase.Some?
    && s.players[u].phaseState.phaseId == Some(s.phase.value.id) && s.players[u].phaseState.ready
  }

  /** A change of readiness sets the deadline anew: when everybody alive is ready the
      phase ends at once, but not before two fifths of its length, to the nearest
      millisecond, nor later than in full; else it runs in full. */
  lemma TheDeadline(s: GameState, u: UserId, c: Command, now: int, next: GameState)
    requires Refusal(s, u, c, now).None? && u in s.players && s.phase.Some? && c.body.PhaseReady?
    requires next == After(s, CommandTransition(s, u, c, now))
    ensures next.phase.Some?
    ensures var start, full, ends := s.phase.value.startedAt, FullLength(s), next.phase.value.endsAt;
            if forall v :: IsAlive(next, v) ==> IsReady(next, v)
            then exists least: nat :: 4 * full - 5 < 10 * least <= 4 * full + 5
                   && ends == if now <= start + least then start + least else if now <= start + full then now else start + full
            else ends == start + full
  {
    hide Refusal, After, CommandTransition, EveryoneReady, Ready;
    CommandTouchesOnlyItsSender(s, u, c, now, next);
    EverybodyIsReady(next);
    var least: nat := Floor(PhaseDuration(s.phase.value.kind, s.settings));
    FloorIsEarlier(PhaseDuration(s.phase.value.kind, s.settings));
    assert 4 * FullLength(s) - 5 < 10 * least <= 4 * FullLength(s) + 5;
  }

  lemma EverybodyIsReady(s: GameState)
    ensures EveryoneReady(s) <==> forall v :: IsAlive(s, v) ==> IsReady(s, v)
  {
    forall v | v in s.players && s.players[v].status == Alive ensures Ready(s, s.players[v]) <==> IsReady(s, v) {
      assert IsAlive(s, v);
    }
  }
}
