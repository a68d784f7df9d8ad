/** Fan-out of a game's events to its sockets
    (apps/server/src/live/game-hub.ts, packages/game-engine/src/projection/permissions.ts). */
module GameHub {
  import opened Wrappers
  import opened Roles
  import opened GameState
  import opened GameChat

  datatype Scope = ToAll | ToPlayer(user: UserId) | ToFaction(channel: Channel) | ToServer

  /** One row of the event log. */
  datatype Event = Event(id: nat, scope: Scope, commandId: Option<nat>)

  type Players = map<UserId, Player>

  // ---- Who may see what ----

  /** Secret channels are read in full by those who started in them, and from
      the marker on by those who were let in. */
  predicate CanViewEvent(e: Event, viewer: UserId, players: Players) {
    match e.scope
    case ToAll => true
    case ToServer => false
    case ToPlayer(u) => u == viewer
    case ToFaction(channel) =>
      && viewer in players
      && var p := players[viewer];
        match channel
        case PublicChannel => false
        case GraveChannel => p.status == Dead
        case _ =>
          && Entitled(p, channel)
          && (ChatRole(p.originalRole, channel) || (channel in p.channelSince && e.id >= p.channelSince[channel]))
  }

  function Latest(log: seq<Event>): nat { if log == [] then 0 else log[|log| - 1].id }

  ghost predicate LogHolds(log: seq<Event>) {
    (forall i :: 0 <= i < |log| ==> log[i].id > 0) && forall i, j :: 0 <= i < j < |log| ==> log[i].id < log[j].id
  }

  // ---- One subscriber ----

  /** `base` is the cursor it subscribed from; `delivered` the ids of the events
      sent to it since. */
  datatype Sub = Sub(user: UserId, active: bool, subscribed: bool, base: nat, cursor: nat, channels: set<Channel>, delivered: set<nat>)

  function Connected(user: UserId): Sub { Sub(user, true, false, 0, 0, {}, {}) }

  /** The ids of the events beyond `after` that the viewer may see. */
  function VisibleIds(events: seq<Event>, after: int, viewer: UserId, players: Players): set<nat> {
    set i | 0 <= i < |events| && events[i].id > after && CanViewEvent(events[i], viewer, players) :: events[i].id
  }

  /** The subscription, decided under the game's lock: from a cursor beyond the
      log the client has to start over; without a seat the socket is closed. */
  function Subscribed(s: Sub, players: Players, log: seq<Event>, cursor: nat): Sub {
    if !s.active || s.subscribed then s
    else if s.user !in players then s.(active := false)
    else if cursor > Latest(log) then s
    else
      s.(subscribed := true, base := cursor, cursor := Latest(log), channels := AvailableChannels(players[s.user]),
         delivered := s.delivered + VisibleIds(log, cursor, s.user, players))
  }

  lemma VisibleSnoc(events: seq<Event>, e: Event, after: int, viewer: UserId, players: Players)
    ensures VisibleIds(events + [e], after, viewer, players)
         == VisibleIds(events, after, viewer, players) + if e.id > after && CanViewEvent(e, viewer, players) then {e.id} else {}
  {
    hide CanViewEvent;
    var more := events + [e];
    forall id ensures id in VisibleIds(more, after, viewer, players)
                 <==> id in VisibleIds(events, after, viewer, players) + if e.id > after && CanViewEvent(e, viewer, players) then {e.id} else {}
    {
      if id in VisibleIds(events, after, viewer, players) {
        var i :| 0 <= i < |events| && events[i].id > after && CanViewEvent(events[i], viewer, players) && events[i].id == id;
        assert more[i] == events[i];
      }
      if e.id > after && CanViewEvent(e, viewer, players) { assert more[|events|] == e; }
    }
  }

  /** What a broadcast prepares for one subscriber before it may have to wait for
      the whole log. */
  datatype Frame = Frame(cursor: nat, channels: set<Channel>, gains: bool)

  function MaxId(events: seq<Event>, least: nat): nat {
    if events == [] then least
    else
      var rest := MaxId(events[..|events| - 1], least);
      if rest < events[|events| - 1].id then events[|events| - 1].id else rest
  }

  function PreparedFor(s: Sub, players: Players, committed: seq<Event>): Frame
    requires s.user in players
  {
    var channels := AvailableChannels(players[s.user]);
    Frame(MaxId(committed, s.cursor), channels, exists c :: c in channels && c !in s.channels)
  }

  function FrameFor(s: Sub, players: Players, committed: seq<Event>): Option<Frame> {
    if s.active && s.subscribed && s.user in players then Some(PreparedFor(s, players, committed)) else None
  }

  /** Without a seat any more the socket is closed. */
  function Checked(s: Sub, players: Players): Sub {
    if s.active && s.subscribed && s.user !in players then s.(active := false) else s
  }

  /** The frame is sent: the whole visible log after gaining a channel, else the
      new events that are visible. */
  function Delivered(s: Sub, frame: Frame, players: Players, committed: seq<Event>, log: seq<Event>): Sub {
    if !s.active then s
    else
      s.(cursor := frame.cursor, channels := frame.channels,
         delivered := s.delivered + if frame.gains then VisibleIds(log, -1, s.user, players) else VisibleIds(committed, s.cursor, s.user, players))
  }

  class Subscriber {
    const user: UserId
    var active: bool
    var subscribed: bool
    var base: nat
    var cursor: nat
    var availableChannels: set<Channel>
    var delivered: set<nat>

    function View(): Sub
      reads this
    {
      Sub(user, active, subscribed, base, cursor, availableChannels, delivered)
    }

    constructor (user: UserId)
      ensures View() == Connected(user)
    {
      this.user := user;
      active, subscribed, base, cursor, availableChannels, delivered := true, false, 0, 0, {}, {};
    }

    method Send(events: seq<Event>, after: int, players: Players)
      modifies this`delivered
      ensures delivered == old(delivered) + if active then VisibleIds(events, after, user, players) else {}
    {
      if !active { return; }
      for k := 0 to |events|
        invariant delivered == old(delivered) + VisibleIds(events[..k], after, user, players)
      {
        assert events[..k + 1] == events[..k] + [events[k]];
        VisibleSnoc(events[..k], events[k], after, user, players);
        if events[k].id > after && CanViewEvent(events[k], user, players) { delivered := delivered + {events[k].id}; }
      }
      assert events[..|events|] == events;
    }

    /** The critical section of `subscribe`, on the state and the log it reads. */
    method Subscribe(players: Players, log: seq<Event>, from: nat)
      modifies this
      ensures View() == Subscribed(old(View()), players, log, from)
    {
      if !active || subscribed { return; }
      if user !in players {
        active := false;
        return;
      }
      var latest := if |log| == 0 then 0 else log[|log| - 1].id;
      if from > latest { return; }
      subscribed := true;
      cursor := latest;
      base := from;
      availableChannels := AvailableChannels(players[user]);
      Send(log, from, players);
    }

    method PrepareFrame(players: Players, committed: seq<Event>) returns (frame: Option<Frame>)
      modifies this
      ensures View() == Checked(old(View()), players) && frame == FrameFor(View(), players, committed)
    {
      if !active || !subscribed { return None; }
      if user !in players {
        active := false;
        return None;
      }
      return Some(PreparedFor(View(), players, committed));
    }

    method Deliver(frame: Frame, players: Players, committed: seq<Event>, fullLog: seq<Event>)
      modifies this
      ensures View() == Delivered(old(View()), frame, players, committed, fullLog)
    {
      if !active { return; }
      if frame.gains { Send(fullLog, -1, players); } else { Send(committed, cursor, players); }
      cursor := frame.cursor;
      availableChannels := frame.channels;
    }
  }

  class Hub {
    var subscribers: seq<Subscriber>

    ghost predicate Valid()
      reads this
    {
      forall i, j :: 0 <= i < j < |subscribers| ==> subscribers[i] != subscribers[j]
    }

    constructor ()
      ensures Valid() && subscribers == []
    {
      subscribers := [];
    }

    method Connect(user: UserId) returns (s: Subscriber)
      requires Valid()
      modifies this
      ensures Valid() && fresh(s) && s.View() == Connected(user) && subscribers == old(subscribers) + [s]
    {
      s := new Subscriber(user);
      subscribers := subscribers + [s];
    }

    /** The first part of a broadcast: one pass over the subscribers, preparing a
        frame for each that is live and still seated. */
    method Prepare(players: Players, committed: seq<Event>) returns (frames: seq<Option<Frame>>)
      requires Valid()
      modifies subscribers
      ensures |frames| == |subscribers|
      ensures forall i :: 0 <= i < |frames| ==>
                && subscribers[i].View() == Checked(old(subscribers[i].View()), players)
                && frames[i] == FrameFor(subscribers[i].View(), players, committed)
    {
      hide FrameFor, Checked;
      frames := [];
      for k := 0 to |subscribers|
        invariant subscribers == old(subscribers) && |frames| == k
        invariant forall j :: 0 <= j < k ==>
                    && subscribers[j].View() == Checked(old(subscribers[j].View()), players)
                    && frames[j] == FrameFor(subscribers[j].View(), players, committed)
        invariant forall j :: k <= j < |subscribers| ==> subscribers[j].View() == old(subscribers[j].View())
      {
        var frame := subscribers[k].PrepareFrame(players, committed);
        frames := frames + [frame];
      }
    }

    /** The second part, once the whole log has been read if anyone needs it. */
    method DeliverAll(frames: seq<Option<Frame>>, players: Players, committed: seq<Event>, fullLog: seq<Event>)
      requires Valid() && |frames| == |subscribers|
      modifies subscribers
      ensures forall i :: 0 <= i < |frames| ==>
                subscribers[i].View() == (if frames[i].Some? then Delivered(old(subscribers[i].View()), frames[i].value, players, committed, fullLog)
                                          else old(subscribers[i].View()))
    {
      hide Delivered;
      for k := 0 to |frames|
        invariant subscribers == old(subscribers)
        invariant forall i :: 0 <= i < k ==>
                    subscribers[i].View() == (if frames[i].Some? then Delivered(old(subscribers[i].View()), frames[i].value, players, committed, fullLog)
                                              else old(subscribers[i].View()))
        invariant forall i :: k <= i < |frames| ==> subscribers[i].View() == old(subscribers[i].View())
      {
        if frames[k].Some? { subscribers[k].Deliver(frames[k].value, players, committed, fullLog); }
      }
    }
  }
}
