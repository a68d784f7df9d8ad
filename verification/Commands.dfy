/** Gameplay commands: the check, what an accepted one does, and the list of
    those that would be accepted (packages/game-engine/src/commands,
    projection/legal-commands.ts). */
module Commands {
  import opened Wrappers
  import opened Bounds
  import opened Roles
  import opened GameState
  import opened Actions
  import opened GameChat
  import opened ChatTypes

  datatype Body =
    | VoteSet(target: UserId)
    | VoteAbstain
    | NightActionSet(action: ActionId, choice: Choice)
    | NightActionClear(action: ActionId)
    | DayActionSet(action: ActionId, choice: Choice)
    | ChatSend(channel: Channel, content: ChatContent)
    | PhaseReady(ready: bool)

  datatype Command = Command(phaseId: nat, body: Body)

  // ---- The check ----

  /** What is wrong with the payload of an action, if anything. */
  function PayloadError(s: GameState, u: UserId, a: ActionId, choice: Choice): Option<ErrorCode>
    requires u in s.players
  {
    if !Offered(s, s.players[u], a) then Some(ActionNotAvailable)
    else match TargetOf(a)
      case NoTarget => None
      case PairTarget =>
        if choice.OnPair? && choice.first != choice.second
           && Eligible(s, u, a, choice.first) && Eligible(s, u, a, choice.second)
        then None else Some(InvalidTarget)
      case OneTarget(_, _) => if choice.On? && Eligible(s, u, a, choice.target) then None else Some(InvalidTarget)
  }

  function ChannelError(p: Player, night: bool, channel: Channel): Option<ErrorCode> {
    match channel
    case PublicChannel => if p.status != Alive || night then Some(ChatReadOnly) else None
    case GraveChannel => if p.status != Dead then Some(ChannelNotAvailable) else None
    case _ =>
      if !Entitled(p, channel) then Some(ChannelNotAvailable)
      else if p.status != Alive then Some(ChatReadOnly)
      else None
  }

  /** Why a command is refused, checked in the source's order. */
  ghost function Refusal(s: GameState, u: UserId, c: Command, now: int): Option<ErrorCode> {
    if u !in s.players then Some(NotAMember)
    else if s.phase.None? then Some(PhaseMismatch)
    else if !c.body.ChatSend? && c.phaseId != s.phase.value.id then Some(PhaseMismatch)
    else if now >= s.phase.value.endsAt then Some(PhaseClosed)
    else if c.body.ChatSend? then
      var error := ChannelError(s.players[u], s.phase.value.kind == NightTime, c.body.channel);
      if error.Some? then error
      else if ValidMentions(s, u, c.body.channel, c.body.content.text, c.body.content.mentions) then None
      else Some(InvalidMention)
    else if s.players[u].status != Alive then Some(NotAlive)
    else match c.body
      case PhaseReady(_) => None
      case VoteAbstain => if s.phase.value.kind != Voting then Some(ActionNotAvailable) else None
      case VoteSet(target) =>
        if s.phase.value.kind != Voting then Some(ActionNotAvailable)
        else if !IsAlive(s, target) then Some(InvalidTarget)
        else None
      case NightActionClear(_) => if s.phase.value.kind != NightTime then Some(ActionNotAvailable) else None
      case NightActionSet(a, choice) =>
        if s.phase.value.kind != NightTime then Some(ActionNotAvailable) else PayloadError(s, u, a, choice)
      case DayActionSet(a, choice) =>
        if s.phase.value.kind == NightTime then Some(ActionNotAvailable) else PayloadError(s, u, a, choice)
      case ChatSend(_, _) => None
  }

  method ValidateActionPayload(s: GameState, u: UserId, a: ActionId, choice: Choice) returns (error: Option<ErrorCode>)
    requires WellFormed(s) && u in s.players
    ensures error == PayloadError(s, u, a, choice)
  {
    hide Offered, Eligible, WellFormed;
    var specs := GetActionSpecsFor(s, s.players[u]);
    if a !in specs { return Some(ActionNotAvailable); }
    if TargetOf(a).NoTarget? { return None; }
    var targets := ResolveTargets(s, u, a);
    if TargetOf(a).PairTarget? {
      if !choice.OnPair? || choice.first == choice.second { return Some(InvalidTarget); }
      if (choice.first, true) !in targets || (choice.second, true) !in targets { return Some(InvalidTarget); }
      return None;
    }
    if !choice.On? { return Some(InvalidTarget); }
    return if (choice.target, true) in targets then None else Some(InvalidTarget);
  }

  method ValidateCommand(s: GameState, u: UserId, c: Command, now: int) returns (error: Option<ErrorCode>)
    requires WellFormed(s)
    ensures error == Refusal(s, u, c, now)
  {
    hide WellFormed, PayloadError, ValidMentions;
    if u !in s.players { return Some(NotAMember); }
    var player := s.players[u];
    if s.phase.None? { return Some(PhaseMismatch); }
    var phase := s.phase.value;
    if !c.body.ChatSend? && c.phaseId != phase.id { return Some(PhaseMismatch); }
    if now >= phase.endsAt { return Some(PhaseClosed); }
    if c.body.ChatSend? {
      error := ChannelError(player, phase.kind == NightTime, c.body.channel);
      if error.Some? { return; }
      error := ValidateChatMentions(s, u, c.body.channel, c.body.content.text, c.body.content.mentions);
      return;
    }
    if player.status != Alive { return Some(NotAlive); }
    match c.body {
      case PhaseReady(_) => return None;
      case VoteAbstain => return if phase.kind != Voting then Some(ActionNotAvailable) else None;
      case VoteSet(target) =>
        if phase.kind != Voting { return Some(ActionNotAvailable); }
        return if IsAlive(s, target) then None else Some(InvalidTarget);
      case NightActionClear(_) => return if phase.kind != NightTime then Some(ActionNotAvailable) else None;
      case NightActionSet(a, choice) =>
        if phase.kind != NightTime { return Some(ActionNotAvailable); }
        error := ValidateActionPayload(s, u, a, choice);
      case DayActionSet(a, choice) =>
        if phase.kind == NightTime { return Some(ActionNotAvailable); }
        error := ValidateActionPayload(s, u, a, choice);
      case ChatSend(_, _) => return None;
    }
  }

  // ---- What an accepted command does ----

  /** The row to merge into: what was stored in another phase is dropped. */
  function RowFor(p: Player, phaseId: nat): PhaseState {
    if p.phaseState.phaseId == Some(phaseId) then p.phaseState else FRESH.(phaseId := Some(phaseId))
  }

  /** The harlot either visits or stays: setting one drops the other. */
  function Exclusive(actions: map<ActionId, Choice>, a: ActionId): map<ActionId, Choice> {
    if a == HarlotVisit then actions - {HarlotStay} else if a == HarlotStay then actions - {HarlotVisit} else actions
  }

  function PhaseDuration(kind: PhaseType, settings: Settings): nat {
    match kind
    case Discussion => settings.discussionMs
    case Voting => settings.votingMs
    case NightTime => settings.nightMs
  }

  /** 40% of the duration, rounded to the nearest millisecond. */
  function Floor(duration: nat): nat { (4 * duration + 5) / 10 }

  predicate Ready(s: GameState, p: Player) { s.phase.Some? && p.phaseState.phaseId == Some(s.phase.value.id) && p.phaseState.ready }

  predicate EveryoneReady(s: GameState) { forall u :: u in s.players && s.players[u].status == Alive ==> Ready(s, s.players[u]) }

  function DeadlineFor(s: GameState, everyone: bool, now: int): int
    requires s.phase.Some?
  {
    var phase := s.phase.value;
    var full := phase.startedAt + PhaseDuration(phase.kind, s.settings);
    var floor := phase.startedAt + Floor(PhaseDuration(phase.kind, s.settings));
    if everyone then Min(full, Max(now, floor)) else full
  }

  function PatchRow(u: UserId, row: PhaseState): PlayerPatch { PlayerPatch(u, NO_CHANGES.(phaseState := Some(row))) }

  function Store(s: GameState, u: UserId, row: PhaseState): GameState
    requires u in s.players
  {
    s.(players := s.players[u := s.players[u].(phaseState := row)])
  }

  /** The row a command stores over `row`. */
  function RowAfter(row: PhaseState, body: Body): PhaseState {
    match body
    case VoteSet(target) => row.(vote := Some(ForPlayer(target)))
    case VoteAbstain => row.(vote := Some(Abstain))
    case NightActionClear(a) => row.(actions := row.actions - {a})
    case NightActionSet(a, choice) => row.(actions := Exclusive(row.actions, a)[a := choice])
    case PhaseReady(ready) => row.(ready := ready)
    case _ => row
  }

  function CommandTransition(s: GameState, u: UserId, c: Command, now: int): Transition
    requires u in s.players && s.phase.Some?
  {
    var row := RowAfter(RowFor(s.players[u], c.phaseId), c.body);
    match c.body
    case ChatSend(_, _) => Transition(NO_PATCH, [], [])
    case DayActionSet(a, choice) =>
      var target := if a == MayorReveal && choice.On? then Some(choice.target) else None;
      Transition(NO_PATCH, [PlayerPatch(u, NO_CHANGES.(roleState := Some(MayorState(true, Some(s.day), target))))], [])
    case PhaseReady(_) =>
      var endsAt := DeadlineFor(s, EveryoneReady(Store(s, u, row)), now);
      Transition(NO_PATCH.(phase := Some(s.phase.value.(endsAt := endsAt))), [PatchRow(u, row)], [])
    case _ => Transition(NO_PATCH, [PatchRow(u, row)], [])
  }

  method ApplyCommand(s: GameState, u: UserId, c: Command, now: int) returns (result: DomainResult)
    requires WellFormed(s)
    ensures var error := Refusal(s, u, c, now);
      result == if error.Some? then Err(error.value) else Ok(CommandTransition(s, u, c, now))
  {
    hide WellFormed, Refusal, EveryoneReady, Ready;
    var error := ValidateCommand(s, u, c, now);
    if error.Some? { return Err(error.value); }
    AcceptedInPhase(s, u, c, now);
    var player := s.players[u];
    var row := if player.phaseState.phaseId == Some(c.phaseId) then player.phaseState else FRESH.(phaseId := Some(c.phaseId));
    match c.body {
      case ChatSend(_, _) => return Ok(Transition(NO_PATCH, [], []));
      case NightActionSet(action, choice) =>
        var actions := row.actions;
        if action == HarlotVisit { actions := actions - {HarlotStay}; }
        if action == HarlotStay { actions := actions - {HarlotVisit}; }
        actions := actions[action := choice];
        row := row.(actions := actions);
      case NightActionClear(action) => row := row.(actions := row.actions - {action});
      case DayActionSet(action, choice) =>
        var target := if action == MayorReveal && choice.On? then Some(choice.target) else None;
        var changes := NO_CHANGES.(roleState := Some(MayorState(true, Some(s.day), target)));
        return Ok(Transition(NO_PATCH, [PlayerPatch(u, changes)], []));
      case PhaseReady(ready) =>
        row := row.(ready := ready);
        var endsAt := DeadlineFor(s, EveryoneReady(Store(s, u, row)), now);
        return Ok(Transition(NO_PATCH.(phase := Some(s.phase.value.(endsAt := endsAt))), [PatchRow(u, row)], []));
      case VoteSet(target) => row := row.(vote := Some(ForPlayer(target)));
      case VoteAbstain => row := row.(vote := Some(Abstain));
    }
    return Ok(Transition(NO_PATCH, [PatchRow(u, row)], []));
  }

  lemma AcceptedInPhase(s: GameState, u: UserId, c: Command, now: int)
    requires Refusal(s, u, c, now).None?
    ensures u in s.players && s.phase.Some? && (c.body.ChatSend? || (c.phaseId == s.phase.value.id && IsAlive(s, u)))
  {
    hide PayloadError, ValidMentions;
  }

  // ---- The clock ----

  /** The deadline lies between the floor and the full length of the phase, and
      is early only when every living player is ready. */
  ghost predicate ClockHolds(s: GameState) {
    s.phase.Some? ==>
      var phase := s.phase.value;
      var duration := PhaseDuration(phase.kind, s.settings);
      && phase.startedAt + Floor(duration) <= phase.endsAt <= phase.startedAt + duration
      && (phase.endsAt < phase.startedAt + duration ==> EveryoneReady(s))
  }

  lemma FloorIsEarlier(duration: nat)
    ensures Floor(duration) <= duration
  {
  }

  lemma CommandPlayers(s: GameState, u: UserId, c: Command, now: int, v: UserId, next: GameState)
    requires Refusal(s, u, c, now).None? && u in s.players && s.phase.Some?
    requires next == After(s, CommandTransition(s, u, c, now))
    requires v in s.players
    ensures next.players.Keys == s.players.Keys && next.settings == s.settings && next.day == s.day && next.status == s.status
    ensures next.roster == s.roster && next.nightsWithoutElimination == s.nightsWithoutElimination && next.winner == s.winner
    ensures v != u ==> next.players[v] == s.players[v]
    ensures next.players[v].status == s.players[v].status && next.players[v].role == s.players[v].role
    ensures next.players[v].faction == s.players[v].faction && next.players[v].originalRole == s.players[v].originalRole
    ensures next.phase.Some? && next.phase.value.id == s.phase.value.id && next.phase.value.kind == s.phase.value.kind
            && next.phase.value.startedAt == s.phase.value.startedAt
    ensures !c.body.PhaseReady? ==> next.phase == s.phase
  {
    hide Refusal, EveryoneReady, DeadlineFor;
    var tr := CommandTransition(s, u, c, now);
    if tr.players != [] { OnePatch(v, s.players[v], tr.players[0]); assert tr.players == [tr.players[0]]; }
  }

  lemma StoredRow(s: GameState, u: UserId, c: Command, now: int, row: PhaseState)
    requires u in s.players && s.phase.Some? && !c.body.ChatSend? && !c.body.DayActionSet?
    requires CommandTransition(s, u, c, now).players == [PatchRow(u, row)]
    ensures After(s, CommandTransition(s, u, c, now)).players == Store(s, u, row).players
  {
    hide EveryoneReady, DeadlineFor;
    var tr := CommandTransition(s, u, c, now);
    forall v | v in s.players ensures PatchedBy(v, s.players[v], tr.players) == Store(s, u, row).players[v] {
      OnePatch(v, s.players[v], PatchRow(u, row));
    }
  }

  // ---- What a command means for its sender and for nobody else ----

  /** What counts of a player in this phase: a row stored in another phase does not. */
  function Counting(s: GameState, u: UserId): PhaseState
    requires s.phase.Some? && u in s.players
  {
    RowFor(s.players[u], s.phase.value.id)
  }

  function ActionIn(row: PhaseState, a: ActionId): Option<Choice> { if a in row.actions then Some(row.actions[a]) else None }

  predicate Rivals(a: ActionId, b: ActionId) { (a == HarlotVisit && b == HarlotStay) || (a == HarlotStay && b == HarlotVisit) }

  /** Of one player's record only the row of this phase may change, or, for a day
      action, the role's state. */
  ghost predicate OnlyTheirs(s: GameState, u: UserId, c: Command, next: GameState) {
    && next.players.Keys == s.players.Keys && next.roster == s.roster && u in s.players
    && (forall v :: v in s.players && v != u ==> next.players[v] == s.players[v])
    && (c.body.ChatSend? || c.body.DayActionSet? ==> next.players[u].phaseState == s.players[u].phaseState)
    && (!c.body.DayActionSet? ==> next.players[u].roleState == s.players[u].roleState)
    && next.players[u] == s.players[u].(phaseState := next.players[u].phaseState, roleState := next.players[u].roleState)
  }

  /** The state after a command: at most the sender's record and the deadline differ. */
  lemma AfterCommand(s: GameState, u: UserId, c: Command, now: int, next: GameState)
    requires u in s.players && s.phase.Some? && next == After(s, CommandTransition(s, u, c, now))
    ensures var tr := CommandTransition(s, u, c, now);
      && next.players.Keys == s.players.Keys && |tr.players| <= 1
      && (forall v :: v in s.players && v != u ==> next.players[v] == s.players[v])
      && next.players[u] == (if tr.players == [] then s.players[u] else Patched(s.players[u], tr.players[0].changes))
      && next == s.(players := next.players, phase := if tr.game.phase.Some? then tr.game.phase else s.phase)
  {
    hide EveryoneReady, DeadlineFor, Patched;
    var tr := CommandTransition(s, u, c, now);
    forall v | v in s.players
      ensures next.players[v] == if v == u && tr.players != [] then Patched(s.players[v], tr.players[0].changes) else s.players[v]
    {
      if tr.players != [] { OnePatch(v, s.players[v], tr.players[0]); assert tr.players == [tr.players[0]]; }
    }
  }

  /** An accepted command touches only its sender's record, and only readiness moves
      the deadline: to the one that the readiness of everybody alive afterwards decides. */
  lemma CommandTouchesOnlyItsSender(s: GameState, u: UserId, c: Command, now: int, next: GameState)
    requires Refusal(s, u, c, now).None? && u in s.players && s.phase.Some?
    requires next == After(s, CommandTransition(s, u, c, now))
    ensures next == s.(players := next.players, phase := next.phase) && OnlyTheirs(s, u, c, next)
    ensures next.phase.Some? && next.phase.value.id == s.phase.value.id
    ensures next.phase == if c.body.PhaseReady? then Some(s.phase.value.(endsAt := DeadlineFor(s, EveryoneReady(next), now))) else s.phase
  {
    hide Refusal, EveryoneReady, DeadlineFor;
    AcceptedPhase(s, u, c, now);
    AfterCommand(s, u, c, now, next);
    if c.body.PhaseReady? {
      var row := RowFor(s.players[u], c.phaseId).(ready := c.body.ready);
      StoredRow(s, u, c, now, row);
      SameReadiness(Store(s, u, row), next);
    }
  }

  /** What then counts of the sender in this phase is the vote, the readiness and the
      action asked for, with the rival of that action dropped, and otherwise what
      counted before; a day action is remembered with its day and target. */
  lemma CommandDoesWhatItSays(s: GameState, u: UserId, c: Command, now: int, next: GameState, a: ActionId)
    requires Refusal(s, u, c, now).None? && u in s.players && s.phase.Some?
    requires next == After(s, CommandTransition(s, u, c, now))
    ensures next.phase.Some? && next.phase.value.id == s.phase.value.id && u in next.players
    ensures Counting(next, u).vote
         == match c.body case VoteSet(target) => Some(ForPlayer(target)) case VoteAbstain => Some(Abstain) case _ => Counting(s, u).vote
    ensures Counting(next, u).ready == if c.body.PhaseReady? then c.body.ready else Counting(s, u).ready
    ensures ActionIn(Counting(next, u), a) == match c.body
              case NightActionSet(b, choice) => if a == b then Some(choice) else if Rivals(a, b) then None else ActionIn(Counting(s, u), a)
              case NightActionClear(b) => if a == b then None else ActionIn(Counting(s, u), a)
              case _ => ActionIn(Counting(s, u), a)
    ensures c.body.DayActionSet? ==>
              next.players[u].roleState == MayorState(true, Some(s.day),
                if c.body.action == MayorReveal && c.body.choice.On? then Some(c.body.choice.target) else None)
  {
    hide Refusal, EveryoneReady, DeadlineFor, After, CommandTransition, Counting;
    CommandTouchesOnlyItsSender(s, u, c, now, next);
    RowCounts(s, u, c, now, next);
    RowSays(Counting(s, u), c.body, a);
    if c.body.DayActionSet? { DayActionIsRemembered(s, u, c, now, next); }
  }

  lemma RowCounts(s: GameState, u: UserId, c: Command, now: int, next: GameState)
    requires Refusal(s, u, c, now).None? && u in s.players && s.phase.Some?
    requires next == After(s, CommandTransition(s, u, c, now))
    requires next.phase.Some? && next.phase.value.id == s.phase.value.id && u in next.players
    ensures Counting(next, u) == RowAfter(Counting(s, u), c.body)
  {
    hide Refusal, EveryoneReady, DeadlineFor, After, Exclusive;
    AcceptedPhase(s, u, c, now);
    AfterCommand(s, u, c, now, next);
  }

  lemma DayActionIsRemembered(s: GameState, u: UserId, c: Command, now: int, next: GameState)
    requires c.body.DayActionSet? && u in s.players && s.phase.Some?
    requires next == After(s, CommandTransition(s, u, c, now)) && u in next.players
    ensures next.players[u].roleState == MayorState(true, Some(s.day),
              if c.body.action == MayorReveal && c.body.choice.On? then Some(c.body.choice.target) else None)
  {
    hide EveryoneReady, DeadlineFor, After, RowAfter;
    AfterCommand(s, u, c, now, next);
  }

  lemma RowSays(row: PhaseState, body: Body, a: ActionId)
    ensures ActionIn(RowAfter(row, body), a) == match body
              case NightActionSet(b, choice) => if a == b then Some(choice) else if Rivals(a, b) then None else ActionIn(row, a)
              case NightActionClear(b) => if a == b then None else ActionIn(row, a)
              case _ => ActionIn(row, a)
  {
  }

  lemma AcceptedPhase(s: GameState, u: UserId, c: Command, now: int)
    requires Refusal(s, u, c, now).None? && u in s.players && s.phase.Some?
    ensures c.body.ChatSend? || c.phaseId == s.phase.value.id
  {
    AcceptedInPhase(s, u, c, now);
  }

  lemma SameReadiness(s: GameState, t: GameState)
    requires s.phase.Some? && t.phase.Some? && s.phase.value.id == t.phase.value.id && s.players == t.players
    ensures EveryoneReady(s) == EveryoneReady(t)
  {
    ReadinessReadsRows(s, t);
  }

  /** A harlot who does not both visit and stay does not come to. */
  lemma OneDoorAtATime(s: GameState, u: UserId, c: Command, now: int, next: GameState)
    requires Refusal(s, u, c, now).None? && u in s.players && s.phase.Some?
    requires next == After(s, CommandTransition(s, u, c, now))
    requires ActionIn(Counting(s, u), HarlotVisit).None? || ActionIn(Counting(s, u), HarlotStay).None?
    ensures next.phase.Some? && u in next.players
    ensures ActionIn(Counting(next, u), HarlotVisit).None? || ActionIn(Counting(next, u), HarlotStay).None?
  {
    hide Refusal, CommandTransition, Counting, DeadlineFor, EveryoneReady;
    CommandDoesWhatItSays(s, u, c, now, next, HarlotVisit);
    CommandDoesWhatItSays(s, u, c, now, next, HarlotStay);
  }

  lemma ReadinessReadsRows(s: GameState, t: GameState)
    requires s.phase.Some? && t.phase.Some? && s.phase.value.id == t.phase.value.id && s.players.Keys == t.players.Keys
    requires forall u :: u in s.players ==>
               s.players[u].status == t.players[u].status
               && (s.players[u].phaseState == t.players[u].phaseState || Ready(s, s.players[u]) == Ready(t, t.players[u]))
    ensures EveryoneReady(s) == EveryoneReady(t)
  {
  }

  lemma DeadlineInBounds(s: GameState, everyone: bool, now: int)
    requires s.phase.Some?
    ensures var phase := s.phase.value;
      var duration := PhaseDuration(phase.kind, s.settings);
      && phase.startedAt + Floor(duration) <= DeadlineFor(s, everyone, now) <= phase.startedAt + duration
      && (DeadlineFor(s, everyone, now) < phase.startedAt + duration ==> everyone)
  {
    FloorIsEarlier(PhaseDuration(s.phase.value.kind, s.settings));
  }

  /** No accepted command moves the deadline out of its bounds, or leaves it
      early with somebody not ready. */
  lemma CommandKeepsTheClock(s: GameState, u: UserId, c: Command, now: int, next: GameState)
    requires ClockHolds(s) && Refusal(s, u, c, now).None? && u in s.players && s.phase.Some?
    requires next == After(s, CommandTransition(s, u, c, now))
    ensures ClockHolds(next)
  {
    hide Refusal, DeadlineFor, PhaseDuration, Floor, EveryoneReady, Patched;
    AcceptedInPhase(s, u, c, now);
    CommandPlayers(s, u, c, now, u, next);
    if c.body.PhaseReady? {
      var row := RowFor(s.players[u], c.phaseId).(ready := c.body.ready);
      StoredRow(s, u, c, now, row);
      DeadlineInBounds(s, EveryoneReady(Store(s, u, row)), now);
      ReadinessReadsRows(Store(s, u, row), next);
    } else {
      ReadinessKept(s, u, c, now, next);
      ReadinessReadsRows(s, next);
    }
  }

  /** Votes and actions leave readiness alone. */
  lemma ReadinessKept(s: GameState, u: UserId, c: Command, now: int, next: GameState)
    requires Refusal(s, u, c, now).None? && u in s.players && s.phase.Some? && !c.body.PhaseReady?
    requires next == After(s, CommandTransition(s, u, c, now))
    ensures next.phase == s.phase && next.players.Keys == s.players.Keys
    ensures forall v :: v in s.players ==>
              s.players[v].status == next.players[v].status
              && (s.players[v].phaseState == next.players[v].phaseState || Ready(s, s.players[v]) == Ready(next, next.players[v]))
  {
    hide Refusal, DeadlineFor, EveryoneReady;
    AcceptedInPhase(s, u, c, now);
    forall v | v in s.players
      ensures s.players[v].status == next.players[v].status
              && (s.players[v].phaseState == next.players[v].phaseState || Ready(s, s.players[v]) == Ready(next, next.players[v]))
    {
      CommandPlayers(s, u, c, now, v, next);
      var tr := CommandTransition(s, u, c, now);
      if tr.players != [] { OnePatch(v, s.players[v], tr.players[0]); assert tr.players == [tr.players[0]]; }
    }
  }

  // ---- The commands that would be accepted ----

  /** A payload of the shape its action takes on the wire. */
  predicate Shaped(a: ActionId, choice: Choice) {
    match TargetOf(a)
    case NoTarget => choice.Bare?
    case OneTarget(_, _) => choice.On?
    case PairTarget => choice.OnPair?
  }

  /** The votes and actions a client can send, each pair in ascending order. */
  predicate Enumerable(s: GameState, c: Command) {
    && s.phase.Some? && c.phaseId == s.phase.value.id
    && match c.body
       case VoteSet(_) => true
       case VoteAbstain => true
       case NightActionSet(a, choice) => NightAction(a) && Shaped(a, choice) && (choice.OnPair? ==> choice.first < choice.second)
       case DayActionSet(a, choice) => !NightAction(a) && Shaped(a, choice) && (choice.OnPair? ==> choice.first < choice.second)
       case _ => false
  }

  function ActionCommand(id: nat, a: ActionId, choice: Choice): Command {
    Command(id, if NightAction(a) then NightActionSet(a, choice) else DayActionSet(a, choice))
  }

  /** The choices of one offered action, from its sorted eligible targets. */
  method Choices(a: ActionId, eligible: seq<UserId>) returns (choices: seq<Choice>)
    requires forall i, j :: 0 <= i < j < |eligible| ==> eligible[i] < eligible[j]
    ensures forall choice :: choice in choices <==>
              && Shaped(a, choice)
              && (choice.On? ==> choice.target in eligible)
              && (choice.OnPair? ==> choice.first in eligible && choice.second in eligible && choice.first < choice.second)
  {
    if TargetOf(a).NoTarget? { return [Bare]; }
    choices := [];
    if TargetOf(a).PairTarget? {
      for i := 0 to |eligible|
        invariant forall choice :: choice in choices <==>
                    choice.OnPair? && choice.first in eligible[..i] && choice.second in eligible && choice.first < choice.second
      {
        var first := eligible[i];
        ghost var before := choices;
        for j := i + 1 to |eligible|
          invariant forall choice :: choice in choices <==>
                      choice in before || (choice.OnPair? && choice.first == first && choice.second in eligible[i + 1..j])
        {
          choices := choices + [OnPair(first, eligible[j])];
          assert eligible[i + 1..j + 1] == eligible[i + 1..j] + [eligible[j]];
        }
        assert eligible[..i + 1] == eligible[..i] + [first];
        assert eligible[i + 1..|eligible|] == eligible[i + 1..];
        forall v | v in eligible ensures first < v <==> v in eligible[i + 1..] { LaterIsLarger(eligible, i, v); }
      }
      assert eligible[..|eligible|] == eligible;
      return;
    }
    for i := 0 to |eligible|
      invariant forall choice :: choice in choices <==> choice.On? && choice.target in eligible[..i]
    {
      choices := choices + [On(eligible[i])];
      assert eligible[..i + 1] == eligible[..i] + [eligible[i]];
    }
    assert eligible[..|eligible|] == eligible;
  }

  lemma LaterIsLarger(ids: seq<UserId>, i: nat, v: UserId)
    requires forall i, j :: 0 <= i < j < |ids| ==> ids[i] < ids[j]
    requires i < |ids| && v in ids
    ensures ids[i] < v <==> v in ids[i + 1..]
  {
    var k :| 0 <= k < |ids| && ids[k] == v;
    if k > i { assert ids[i + 1..][k - i - 1] == v; }
    if v in ids[i + 1..] { var m :| 0 <= m < |ids[i + 1..]| && ids[i + 1..][m] == v; assert ids[m + i + 1] == v; }
  }

  ghost predicate OfSpec(s: GameState, u: UserId, a: ActionId, c: Command)
    requires s.phase.Some?
  {
    exists choice ::
      && c == ActionCommand(s.phase.value.id, a, choice) && Shaped(a, choice)
      && (choice.On? ==> Eligible(s, u, a, choice.target))
      && (choice.OnPair? ==> Eligible(s, u, a, choice.first) && Eligible(s, u, a, choice.second) && choice.first < choice.second)
  }

  method CommandsOfSpec(s: GameState, u: UserId, a: ActionId) returns (commands: seq<Command>)
    requires s.phase.Some? && u in s.players
    ensures forall c :: c in commands <==> OfSpec(s, u, a, c)
  {
    hide Eligible, Shaped, OfSpec, ActionCommand;
    var eligible := SortedIds(set v | v in s.players && Eligible(s, u, a, v));
    EligibleAreIn(s, u, a);
    var choices := Choices(a, eligible);
    commands := [];
    for i := 0 to |choices|
      invariant commands == CommandsFor(s.phase.value.id, a, choices[..i])
    {
      assert choices[..i + 1][..i] == choices[..i];
      commands := commands + [ActionCommand(s.phase.value.id, a, choices[i])];
    }
    assert choices[..|choices|] == choices;
    forall c ensures c in commands <==> OfSpec(s, u, a, c) {
      CommandsForAre(s.phase.value.id, a, choices, c);
      SpecFromChoices(s, u, a, choices, c);
    }
  }

  lemma SpecFromChoices(s: GameState, u: UserId, a: ActionId, choices: seq<Choice>, c: Command)
    requires s.phase.Some?
    requires forall choice :: choice in choices <==>
               && Shaped(a, choice)
               && (choice.On? ==> Eligible(s, u, a, choice.target))
               && (choice.OnPair? ==> Eligible(s, u, a, choice.first) && Eligible(s, u, a, choice.second) && choice.first < choice.second)
    ensures OfSpec(s, u, a, c) <==> exists choice :: choice in choices && c == ActionCommand(s.phase.value.id, a, choice)
  {
    hide Shaped, Eligible, ActionCommand;
  }

  function CommandsFor(id: nat, a: ActionId, choices: seq<Choice>): seq<Command> {
    if choices == [] then []
    else CommandsFor(id, a, choices[..|choices| - 1]) + [ActionCommand(id, a, choices[|choices| - 1])]
  }

  lemma {:induction false} CommandsForAre(id: nat, a: ActionId, choices: seq<Choice>, c: Command)
    ensures c in CommandsFor(id, a, choices) <==> exists choice :: choice in choices && c == ActionCommand(id, a, choice)
    decreases |choices|
  {
    if choices != [] {
      var (init, last) := (choices[..|choices| - 1], choices[|choices| - 1]);
      CommandsForAre(id, a, init, c);
      assert choices == init + [last];
      assert last in choices;
    }
  }

  lemma EligibleAreIn(s: GameState, u: UserId, a: ActionId)
    ensures forall v :: Eligible(s, u, a, v) ==> v in s.players
  {
  }

  /** An offered action's candidates are exactly the enumerable commands the
      check accepts for it. */
  lemma OfSpecIsAccepted(s: GameState, u: UserId, c: Command, now: int)
    requires u in s.players && s.phase.Some? && s.phase.value.endsAt > now && s.players[u].status == Alive
    requires c.body.NightActionSet? || c.body.DayActionSet?
    ensures Enumerable(s, c) && Refusal(s, u, c, now).None? <==>
            Offered(s, s.players[u], c.body.action) && OfSpec(s, u, c.body.action, c)
  {
    hide Eligible, Available, Declared;
    var a, choice := c.body.action, c.body.choice;
    if Enumerable(s, c) && Refusal(s, u, c, now).None? {
      assert c == ActionCommand(s.phase.value.id, a, choice);
    }
  }

  ghost predicate OfVote(s: GameState, c: Command)
    requires s.phase.Some?
  {
    s.phase.value.kind == Voting && c.phaseId == s.phase.value.id
    && (c.body == VoteAbstain || (c.body.VoteSet? && c.body.target in s.players))
  }

  method VoteCommands(s: GameState) returns (commands: seq<Command>)
    requires s.phase.Some?
    ensures forall c :: c in commands <==> OfVote(s, c)
  {
    commands := [];
    if s.phase.value.kind == Voting {
      var ids := SortedIds(s.players.Keys);
      for i := 0 to |ids|
        invariant commands == VotesFor(s.phase.value.id, ids[..i])
      {
        assert ids[..i + 1][..i] == ids[..i];
        commands := commands + [Command(s.phase.value.id, VoteSet(ids[i]))];
      }
      assert ids[..|ids|] == ids;
      VotesListed(s, ids);
      commands := commands + [Command(s.phase.value.id, VoteAbstain)];
    }
  }

  lemma VotesListed(s: GameState, ids: seq<UserId>)
    requires s.phase.Some? && s.phase.value.kind == Voting && forall u :: u in ids <==> u in s.players
    ensures forall c :: c in VotesFor(s.phase.value.id, ids) + [Command(s.phase.value.id, VoteAbstain)] <==> OfVote(s, c)
  {
    hide VotesFor;
    forall c ensures c in VotesFor(s.phase.value.id, ids) + [Command(s.phase.value.id, VoteAbstain)] <==> OfVote(s, c) {
      VotesForAre(s.phase.value.id, ids, c);
    }
  }

  function VotesFor(id: nat, targets: seq<UserId>): seq<Command> {
    if targets == [] then []
    else VotesFor(id, targets[..|targets| - 1]) + [Command(id, VoteSet(targets[|targets| - 1]))]
  }

  lemma {:induction false} VotesForAre(id: nat, targets: seq<UserId>, c: Command)
    ensures c in VotesFor(id, targets) <==> c.phaseId == id && c.body.VoteSet? && c.body.target in targets
    decreases |targets|
  {
    if targets != [] {
      var (init, last) := (targets[..|targets| - 1], targets[|targets| - 1]);
      VotesForAre(id, init, c);
      assert targets == init + [last];
    }
  }

  lemma VotesAreCandidates(s: GameState, u: UserId, c: Command, now: int)
    requires u in s.players && s.phase.Some? && Refusal(s, u, c, now).None? && Enumerable(s, c)
    requires c.body.VoteSet? || c.body.VoteAbstain?
    ensures OfVote(s, c)
  {
    hide PayloadError, ValidMentions;
  }

  /** The enumeration lists exactly the votes and actions the check accepts now. */
  method GetLegalCommands(s: GameState, u: UserId, now: int) returns (legal: seq<Command>)
    requires WellFormed(s)
    ensures forall c :: c in legal <==> Enumerable(s, c) && Refusal(s, u, c, now).None?
  {
    hide WellFormed, Refusal, Enumerable, Offered, OfSpec, OfVote;
    legal := [];
    if s.phase.None? || u !in s.players {
      forall c ensures !(Enumerable(s, c) && Refusal(s, u, c, now).None?) { NothingWithoutAPhase(s, u, c, now); }
      return;
    }
    var candidates := VoteCommands(s);
    var specs := GetActionSpecsFor(s, s.players[u]);
    for i := 0 to |specs|
      invariant forall c :: c in candidates <==> OfVote(s, c) || exists j :: 0 <= j < i && OfSpec(s, u, specs[j], c)
    {
      var more := CommandsOfSpec(s, u, specs[i]);
      candidates := candidates + more;
    }
    for i := 0 to |candidates|
      invariant forall c :: c in legal <==> c in candidates[..i] && Enumerable(s, c) && Refusal(s, u, c, now).None?
    {
      assert candidates[..i + 1] == candidates[..i] + [candidates[i]];
      CandidatesAreEnumerable(s, u, candidates[i], specs);
      var error := ValidateCommand(s, u, candidates[i], now);
      if error.None? { legal := legal + [candidates[i]]; }
    }
    assert candidates[..|candidates|] == candidates;
    forall c | Enumerable(s, c) && Refusal(s, u, c, now).None? ensures c in candidates {
      AcceptedIsCandidate(s, u, c, now, specs);
    }
  }

  lemma NothingWithoutAPhase(s: GameState, u: UserId, c: Command, now: int)
    requires s.phase.None? || u !in s.players
    ensures Refusal(s, u, c, now).Some?
  {
  }

  lemma CandidatesAreEnumerable(s: GameState, u: UserId, c: Command, specs: seq<ActionId>)
    requires s.phase.Some?
    requires OfVote(s, c) || exists j :: 0 <= j < |specs| && OfSpec(s, u, specs[j], c)
    ensures Enumerable(s, c)
  {
    hide Eligible;
  }

  lemma AcceptedIsCandidate(s: GameState, u: UserId, c: Command, now: int, specs: seq<ActionId>)
    requires s.phase.Some? && u in s.players
    requires forall a :: a in specs <==> Offered(s, s.players[u], a)
    requires Enumerable(s, c) && Refusal(s, u, c, now).None?
    ensures OfVote(s, c) || exists j :: 0 <= j < |specs| && OfSpec(s, u, specs[j], c)
  {
    hide Offered, OfSpec;
    AcceptedInPhase(s, u, c, now);
    if c.body.VoteSet? || c.body.VoteAbstain? {
      VotesAreCandidates(s, u, c, now);
    } else {
      StillOpen(s, u, c, now);
      OfSpecIsAccepted(s, u, c, now);
      var j :| 0 <= j < |specs| && specs[j] == c.body.action;
    }
  }

  lemma StillOpen(s: GameState, u: UserId, c: Command, now: int)
    requires Refusal(s, u, c, now).None? && s.phase.Some? && u in s.players
    ensures s.phase.value.endsAt > now
  {
    hide PayloadError, ValidMentions;
  }

  // ---- The list and the check agree ----

  /** A vote or action as it can arrive: the payload has its action's shape,
      but a pair may come in either order. */
  predicate Sendable(c: Command) {
    match c.body
    case VoteSet(_) => true
    case VoteAbstain => true
    case NightActionSet(a, choice) => NightAction(a) && Shaped(a, choice)
    case DayActionSet(a, choice) => !NightAction(a) && Shaped(a, choice)
    case _ => false
  }

  function InPairOrder(choice: Choice): Choice {
    if choice.OnPair? && choice.second < choice.first then OnPair(choice.second, choice.first) else choice
  }

  function Canonical(c: Command): Command {
    match c.body
    case NightActionSet(a, choice) => c.(body := NightActionSet(a, InPairOrder(choice)))
    case DayActionSet(a, choice) => c.(body := DayActionSet(a, InPairOrder(choice)))
    case _ => c
  }

  /** A vote or action is accepted exactly when it is on the list, up to the
      order of a pair. */
  lemma ListAgreesWithCheck(s: GameState, u: UserId, c: Command, now: int)
    requires Sendable(c)
    ensures Refusal(s, u, c, now).None? <==> Enumerable(s, Canonical(c)) && Refusal(s, u, Canonical(c), now).None?
  {
    hide Eligible, Offered, ValidMentions;
  }
}
