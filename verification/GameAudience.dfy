/** Whom an event reaches, told from its scope and the players' records alone
    (packages/game-engine/src/projection/permissions.ts, apps/server/src/live/game-hub.ts). */
module GameAudience {
  import opened Wrappers
  import opened Roles
  import opened GameState
  import opened GameChat
  import opened GameHub
  import opened GameDelivery
  import opened Records

  /** The player holds one of the roles and started with one of them, or was let in
      no later than the event. */
  predicate Among(p: Player, roles: set<RoleId>, channel: Channel, id: nat) {
    HasOneOf(p.role, roles) && (HasOneOf(p.originalRole, roles) || (channel in p.channelSince && p.channelSince[channel] <= id))
  }

  /** At some state of the run the user's seat was in this chat. */
  ghost predicate WasAmong(sys: System, steps: seq<Step>, user: UserId, roles: set<RoleId>, channel: Channel, id: nat)
    decreases |steps|
  {
    || (user in sys.db.players && Among(sys.db.players[user], roles, channel, id))
    || (steps != [] && Enabled(sys, steps[0]) && WasAmong(Take(sys, steps[0]), steps[1..], user, roles, channel, id))
  }

  /** At some state of the run the user's seat was a dead player's. */
  ghost predicate WasDead(sys: System, steps: seq<Step>, user: UserId)
    decreases |steps|
  {
    || (user in sys.db.players && sys.db.players[user].status == Dead)
    || (steps != [] && Enabled(sys, steps[0]) && WasDead(Take(sys, steps[0]), steps[1..], user))
  }

  /** The user had a right to the event at some state of the run. */
  ghost predicate MayHaveReached(sys: System, steps: seq<Step>, user: UserId, e: Event) {
    match e.scope
    case ToAll => true
    case ToServer => false
    case ToPlayer(u) => u == user
    case ToFaction(channel) =>
      match channel
      case PublicChannel => false
      case GraveChannel => WasDead(sys, steps, user)
      case WolvesChannel => WasAmong(sys, steps, user, WOLF_CHAT_ROLES, channel, e.id)
      case CultChannel => WasAmong(sys, steps, user, CULT_CHAT_ROLES, channel, e.id)
  }

  lemma VisibleNow(sys: System, steps: seq<Step>, user: UserId, e: Event)
    requires CanViewEvent(e, user, sys.db.players)
    ensures MayHaveReached(sys, steps, user, e)
  {
    hide Enabled, Take;
  }

  lemma ReachedLater(sys: System, steps: seq<Step>, user: UserId, e: Event)
    requires steps != [] && Enabled(sys, steps[0]) && MayHaveReached(Take(sys, steps[0]), steps[1..], user, e)
    ensures MayHaveReached(sys, steps, user, e)
  {
    hide Enabled, Take, Among;
  }

  // ---- The log only grows ----

  lemma StepExtendsLog(sys: System, step: Step)
    requires Inv(sys) && Enabled(sys, step)
    ensures sys.db.log <= Take(sys, step).db.log
  {
    hide CanViewEvent, UpToDate, KeepsOrigins, InsertedAll, Moved;
    if step.Commit? {
      InsertingGrows(sys.db, step.drafts, step.ids, |step.drafts|);
    }
  }

  lemma {:induction false} RunExtendsLog(sys: System, steps: seq<Step>, end: System)
    requires Inv(sys) && Run(sys, steps, end)
    ensures sys.db.log <= end.db.log && LogHolds(end.db.log)
    decreases |steps|
  {
    hide Enabled, Take, UpToDate, Moved;
    if steps != [] {
      StepKeepsInv(sys, steps[0]);
      StepExtendsLog(sys, steps[0]);
      RunExtendsLog(Take(sys, steps[0]), steps[1..], end);
    }
  }

  lemma OneRowPerId(log: seq<Event>, e: Event, f: Event)
    requires LogHolds(log) && e in log && f in log && e.id == f.id
    ensures e == f
  {
    var i :| 0 <= i < |log| && log[i] == e;
    var j :| 0 <= j < |log| && log[j] == f;
    assert i == j;
  }

  lemma StillLogged(log: seq<Event>, longer: seq<Event>, e: Event)
    requires log <= longer && e in log
    ensures e in longer
  {
    var i :| 0 <= i < |log| && log[i] == e;
    assert longer[i] == e;
  }

  lemma {:induction false} VisibleIsAddressed(sys: System, steps: seq<Step>, end: System, user: UserId, e: Event)
    requires Inv(sys) && Run(sys, steps, end) && WasVisible(sys, steps, user, e.id)
    requires e in end.db.log
    ensures MayHaveReached(sys, steps, user, e)
    decreases |steps|
  {
    hide Inv, Enabled, Take, CanViewEvent, MayHaveReached, LogHolds;
    if IsVisible(sys.db, user, e.id) {
      var seen :| seen in sys.db.log && seen.id == e.id && CanViewEvent(seen, user, sys.db.players);
      RunExtendsLog(sys, steps, end);
      StillLogged(sys.db.log, end.db.log, seen);
      OneRowPerId(end.db.log, seen, e);
      VisibleNow(sys, steps, user, e);
    } else {
      StepKeepsInv(sys, steps[0]);
      VisibleIsAddressed(Take(sys, steps[0]), steps[1..], end, user, e);
      ReachedLater(sys, steps, user, e);
    }
  }

  lemma {:induction false} VisibleIsLogged(sys: System, steps: seq<Step>, end: System, user: UserId, id: nat)
    requires Inv(sys) && Run(sys, steps, end) && WasVisible(sys, steps, user, id)
    ensures exists e :: e in end.db.log && e.id == id
    decreases |steps|
  {
    hide Inv, Enabled, Take, CanViewEvent, LogHolds;
    if IsVisible(sys.db, user, id) {
      var seen :| seen in sys.db.log && seen.id == id && CanViewEvent(seen, user, sys.db.players);
      RunExtendsLog(sys, steps, end);
      StillLogged(sys.db.log, end.db.log, seen);
    } else {
      StepKeepsInv(sys, steps[0]);
      VisibleIsLogged(Take(sys, steps[0]), steps[1..], end, user, id);
    }
  }

  /** Main result. Secrets reach nobody else, along any run: what a socket has been
      sent are logged events; one kept on the server is never among them, one for a
      player only if the socket is theirs, one of a secret chat only if its user was
      in that chat at some time, from the start or since before the event, and one of
      the grave only if its user was dead at some time. */
  lemma OnlyTheAddressedAreReached(start: System, steps: seq<Step>, end: System, socket: nat, id: nat)
    requires Init(start) && Run(start, steps, end) && socket in end.subs && id in end.subs[socket].delivered
    ensures exists e :: e in end.db.log && e.id == id
    ensures forall e :: e in end.db.log && e.id == id ==>
              var user := end.subs[socket].user;
              && e.scope != ToServer && e.scope != ToFaction(PublicChannel)
              && (e.scope.ToPlayer? ==> e.scope.user == user)
              && (e.scope == ToFaction(GraveChannel) ==> WasDead(start, steps, user))
              && (e.scope == ToFaction(WolvesChannel) ==> WasAmong(start, steps, user, WOLF_CHAT_ROLES, WolvesChannel, id))
              && (e.scope == ToFaction(CultChannel) ==> WasAmong(start, steps, user, CULT_CHAT_ROLES, CultChannel, id))
  {
    hide Run, WasVisible, WasDead, WasAmong;
    var user := end.subs[socket].user;
    OnlyTheVisibleIsSent(start, steps, end, socket, id);
    VisibleIsLogged(start, steps, end, user, id);
    forall e | e in end.db.log && e.id == id ensures MayHaveReached(start, steps, user, e) {
      VisibleIsAddressed(start, steps, end, user, e);
    }
  }

  /** Main result. And everybody else is reached: between two broadcasts a live
      subscriber has been sent, beyond the id it asked from, every event for all, every
      event for its user, the grave once the user is dead, and the secret chat its user
      is in, from the start or from the marker on. From 0 that is the whole log. */
  lemma TheAddressedAreReached(start: System, steps: seq<Step>, end: System, socket: nat, e: Event)
    requires Init(start) && Run(start, steps, end) && end.mode.Idle?
    requires socket in end.subs && end.subs[socket].active && end.subs[socket].subscribed
    requires e in end.db.log && (e.id > end.subs[socket].base || end.subs[socket].base == 0)
    ensures var s := end.subs[socket];
            && s.user in end.db.players
            && var p := end.db.players[s.user];
            && (e.scope == ToAll ==> e.id in s.delivered)
            && (e.scope == ToPlayer(s.user) ==> e.id in s.delivered)
            && (e.scope == ToFaction(GraveChannel) && p.status == Dead ==> e.id in s.delivered)
            && (e.scope == ToFaction(WolvesChannel) && Among(p, WOLF_CHAT_ROLES, WolvesChannel, e.id) ==> e.id in s.delivered)
            && (e.scope == ToFaction(CultChannel) && Among(p, CULT_CHAT_ROLES, CultChannel, e.id) ==> e.id in s.delivered)
  {
    hide Run, Moved, AvailableChannels;
    var s := end.subs[socket];
    DeliveryRefinesTheLog(start, steps, end, socket, e);
    RunKeepsInv(start, steps, end);
    assert UpToDate(end.db, s);
  }

  /** An open socket is subscribed once its user, being seated, has asked from within the
      log, and from then on; only closing it or leaving the game ends that. */
  lemma SubscribersStayLive(sys: System, step: Step, socket: nat)
    requires Inv(sys) && Enabled(sys, step) && socket in sys.subs && sys.subs[socket].active
    ensures var s, t := sys.subs[socket], Take(sys, step).subs[socket];
            && (t.subscribed <==> || s.subscribed
                                  || (step.Subscribe? && step.socket == socket && s.user in sys.db.players
                                      && (step.cursor == 0 || (sys.db.log != [] && step.cursor <= sys.db.log[|sys.db.log| - 1].id))))
            && (s.subscribed ==> t.base == s.base)
            && (!s.subscribed && t.subscribed ==> t.base == step.cursor)
            && (!t.active <==> || (step.Close? && step.socket == socket)
                               || (step.Prepare? && s.subscribed && s.user !in sys.db.players)
                               || (step.Subscribe? && step.socket == socket && !s.subscribed && s.user !in sys.db.players))
  {
    hide UpToDate, CommittedDb, KeepsOrigins, NewIds, VisibleIds, DbHolds, Moved, AvailableChannels;
  }
}
