/** A game's events end to end: commits append to the log and move the state,
    then every socket is brought up to date, all under the game's lock
    (packages/db/src/repository.ts, apps/server/src/game/coordinator.ts,
    apps/server/src/live/game-hub.ts). */
module GameDelivery {
  import opened Wrappers
  import opened Roles
  import opened GameState
  import opened GameChat
  import opened GameHub

  /** The stored log and players of a game. */
  datatype Db = Db(log: seq<Event>, players: Players)

  /** An event to be inserted; a join event also marks its player. */
  datatype Draft = Draft(scope: Scope, commandId: Option<nat>, join: Option<Join>)

  // ---- Inserting events ----

  function RowWith(log: seq<Event>, commandId: nat): (row: Option<Event>)
    ensures row.Some? ==> row.value in log
  {
    if log == [] then None else if log[0].commandId == Some(commandId) then Some(log[0]) else RowWith(log[1..], commandId)
  }

  function Marked(players: Players, join: Join, id: nat): Players {
    if join.playerId !in players then players
    else
      var p := players[join.playerId];
      players[join.playerId := p.(channelSince := p.channelSince[join.channel := id])]
  }

  /** A retried command finds its row instead of inserting another. */
  function Inserted(db: Db, draft: Draft, id: nat): (Db, Event) {
    var existing := if draft.commandId.Some? then RowWith(db.log, draft.commandId.value) else None;
    var row := if existing.Some? then existing.value else Event(id, draft.scope, draft.commandId);
    var log := if existing.Some? then db.log else db.log + [row];
    (Db(log, if draft.join.Some? then Marked(db.players, draft.join.value, row.id) else db.players), row)
  }

  function InsertedAll(db: Db, drafts: seq<Draft>, ids: seq<nat>, n: nat): (Db, seq<Event>)
    requires n <= |drafts| && |ids| == |drafts|
  {
    if n == 0 then (db, [])
    else
      var before := InsertedAll(db, drafts, ids, n - 1);
      var (after, row) := Inserted(before.0, drafts[n - 1], ids[n - 1]);
      (after, before.1 + [row])
  }

  lemma NothingInserted(db: Db, drafts: seq<Draft>, ids: seq<nat>)
    requires |ids| == |drafts|
    ensures InsertedAll(db, drafts, ids, 0) == (db, [])
  {
  }

  lemma OneMoreInserted(db: Db, drafts: seq<Draft>, ids: seq<nat>, n: nat)
    requires n < |drafts| && |ids| == |drafts|
    ensures var before := InsertedAll(db, drafts, ids, n);
            var (after, row) := Inserted(before.0, drafts[n], ids[n]);
            InsertedAll(db, drafts, ids, n + 1) == (after, before.1 + [row])
  {
    hide Inserted;
  }

  class EventStore {
    var log: seq<Event>
    var players: Players

    function View(): Db
      reads this
    {
      Db(log, players)
    }

    constructor (players: Players)
      ensures View() == Db([], players)
    {
      log, this.players := [], players;
    }

    /** The events of a commit, in order; `ids` are the keys the table hands out. */
    method InsertEvents(drafts: seq<Draft>, ids: seq<nat>) returns (inserted: seq<Event>)
      requires |ids| == |drafts|
      modifies this
      ensures (View(), inserted) == InsertedAll(old(View()), drafts, ids, |drafts|)
    {
      hide InsertedAll, RowWith, Marked;
      inserted := [];
      NothingInserted(View(), drafts, ids);
      for k := 0 to |drafts|
        invariant (View(), inserted) == InsertedAll(old(View()), drafts, ids, k)
      {
        OneMoreInserted(old(View()), drafts, ids, k);
        var draft := drafts[k];
        var existing := if draft.commandId.Some? then RowWith(log, draft.commandId.value) else None;
        var row := Event(ids[k], draft.scope, draft.commandId);
        if existing.Some? { row := existing.value; } else { log := log + [row]; }
        inserted := inserted + [row];
        if draft.join.Some? { players := Marked(players, draft.join.value, row.id); }
      }
    }

    method ApplyPatches(patches: seq<PlayerPatch>)
      modifies this`players
      ensures players.Keys == old(players).Keys
      ensures forall u :: u in players ==> players[u] == PatchedBy(u, old(players)[u], patches)
    {
      players := map u | u in players :: PatchedBy(u, players[u], patches);
    }
  }

  /** Keys the table hands out: each beyond everything before it. */
  ghost predicate NewIds(log: seq<Event>, ids: seq<nat>) {
    (forall i :: 0 <= i < |ids| ==> ids[i] > Latest(log)) && forall i, j :: 0 <= i < j < |ids| ==> ids[i] < ids[j]
  }

  /** A player may get into channels, but only as of new events, and keeps the
      role they started with. */
  ghost predicate Evolves(p: Player, q: Player, last: nat) {
    && (p.originalRole.Some? ==> q.originalRole == p.originalRole)
    && forall channel :: channel in q.channelSince ==>
         (channel in p.channelSince && p.channelSince[channel] == q.channelSince[channel]) || q.channelSince[channel] > last
  }

  ghost predicate Grows(before: seq<Event>, after: seq<Event>, rows: seq<Event>) {
    && LogHolds(after) && before <= after
    && (forall i :: |before| <= i < |after| ==> after[i] in rows)
    && forall r :: r in rows ==> r in after
  }

  ghost predicate MarksOnly(before: Players, after: Players, last: nat) {
    && before.Keys == after.Keys
    && forall u :: u in before ==> Evolves(before[u], after[u], last) && after[u] == before[u].(channelSince := after[u].channelSince)
  }

  lemma RowOrNew(log: seq<Event>, rows: seq<Event>, row: Event, after: seq<Event>, before: seq<Event>)
    requires Grows(before, log, rows)
    requires (after == log && row in log) || (after == log + [row] && row.id > Latest(log))
    ensures Grows(before, after, rows + [row])
  {
    if after == log + [row] {
      forall i, j | 0 <= i < j < |after| ensures after[i].id < after[j].id {
        if j == |log| { assert after[i] == log[i]; }
      }
      forall i | |before| <= i < |after| ensures after[i] in rows + [row] {
        if i < |log| { assert after[i] == log[i]; }
      }
      forall r | r in rows + [row] ensures r in after {
        if r in rows { assert r in log; } else { assert after[|log|] == row; }
      }
    }
  }

  lemma {:induction false} InsertingGrows(db: Db, drafts: seq<Draft>, ids: seq<nat>, n: nat)
    requires n <= |drafts| && |ids| == |drafts| && LogHolds(db.log) && NewIds(db.log, ids)
    requires forall k :: 0 <= k < |drafts| && drafts[k].join.Some? ==> drafts[k].commandId.None?
    ensures var (after, rows) := InsertedAll(db, drafts, ids, n);
      Grows(db.log, after.log, rows) && MarksOnly(db.players, after.players, Latest(db.log))
      && Latest(after.log) <= (if n == 0 then Latest(db.log) else ids[n - 1])
  {
    hide Grows, MarksOnly, RowWith;
    if n == 0 {
      NothingGrows(db);
    } else {
      InsertingGrows(db, drafts, ids, n - 1);
      var (before, rows) := InsertedAll(db, drafts, ids, n - 1);
      var (after, row) := Inserted(before, drafts[n - 1], ids[n - 1]);
      RowOrNew(before.log, rows, row, after.log, db.log);
      if drafts[n - 1].join.Some? { MarkingMarks(db.players, before.players, drafts[n - 1].join.value, row.id, Latest(db.log)); }
    }
  }

  ghost predicate NeverLogged(log: seq<Event>, commandId: nat) { forall r :: r in log ==> r.commandId != Some(commandId) }

  /** No two rows of the log answer the same command. */
  ghost predicate OneRowPerCommand(log: seq<Event>) {
    forall i, j :: 0 <= i < j < |log| && log[i].commandId.Some? ==> log[i].commandId != log[j].commandId
  }

  lemma {:induction false} RowWithIs(log: seq<Event>, commandId: nat)
    ensures RowWith(log, commandId).None? <==> NeverLogged(log, commandId)
    ensures RowWith(log, commandId).Some? ==> RowWith(log, commandId).value.commandId == Some(commandId)
  {
    if log != [] && log[0].commandId != Some(commandId) {
      RowWithIs(log[1..], commandId);
      assert forall r :: r in log ==> r == log[0] || r in log[1..];
      assert forall r :: r in log[1..] ==> r in log;
    }
  }

  /** One draft: a logged command keeps its row and adds none; anything else becomes
      the next row, under its own key. */
  lemma InsertedRow(db: Db, draft: Draft, id: nat)
    ensures var (after, row) := Inserted(db, draft, id);
            && row.commandId == draft.commandId
            && if draft.commandId.Some? && !NeverLogged(db.log, draft.commandId.value)
               then after.log == db.log && row in db.log
               else after.log == db.log + [row] && row == Event(id, draft.scope, draft.commandId)
  {
    if draft.commandId.Some? { RowWithIs(db.log, draft.commandId.value); }
  }

  lemma OneRowMore(db: Db, draft: Draft, id: nat)
    requires OneRowPerCommand(db.log)
    ensures OneRowPerCommand(Inserted(db, draft, id).0.log)
  {
    hide Inserted, RowWith;
    InsertedRow(db, draft, id);
    var after := Inserted(db, draft, id).0;
    if after.log != db.log {
      forall i, j | 0 <= i < j < |after.log| && after.log[i].commandId.Some? ensures after.log[i].commandId != after.log[j].commandId {
        assert after.log[i] == db.log[i] && db.log[i] in db.log;
      }
    }
  }

  ghost predicate FromDraft(row: Event, drafts: seq<Draft>, ids: seq<nat>, n: nat)
    requires n <= |drafts| && |ids| == |drafts|
  {
    exists j :: 0 <= j < n && row == Event(ids[j], drafts[j].scope, drafts[j].commandId)
  }

  /** A commit adds one row for every draft whose command has not been logged yet; a
      retried command is answered with the row it has. */
  lemma {:induction false} InsertedRows(db: Db, drafts: seq<Draft>, ids: seq<nat>, n: nat)
    requires n <= |drafts| && |ids| == |drafts| && OneRowPerCommand(db.log)
    ensures var (after, rows) := InsertedAll(db, drafts, ids, n);
            && OneRowPerCommand(after.log) && db.log <= after.log && |rows| == n
            && (forall k :: 0 <= k < n ==>
                  && rows[k] in after.log && rows[k].commandId == drafts[k].commandId
                  && (drafts[k].commandId.None? ==> rows[k] == Event(ids[k], drafts[k].scope, None)))
            && forall r :: r in after.log ==> r in db.log || FromDraft(r, drafts, ids, n)
  {
    hide Inserted, RowWith, OneRowPerCommand;
    if n == 0 {
      NothingInserted(db, drafts, ids);
    } else {
      InsertedRows(db, drafts, ids, n - 1);
      var (before, rows) := InsertedAll(db, drafts, ids, n - 1);
      InsertedRow(before, drafts[n - 1], ids[n - 1]);
      OneRowMore(before, drafts[n - 1], ids[n - 1]);
      var (after, row) := Inserted(before, drafts[n - 1], ids[n - 1]);
      forall r | r in after.log ensures r in db.log || FromDraft(r, drafts, ids, n) {
        if r in before.log && r !in db.log { var j :| 0 <= j < n - 1 && r == Event(ids[j], drafts[j].scope, drafts[j].commandId); }
      }
    }
  }

  ghost predicate NeverJoins(drafts: seq<Draft>, from: nat, n: nat, join: Join)
    requires n <= |drafts|
  {
    forall j :: from <= j < n ==> drafts[j].join != Some(join)
  }

  /** What one draft does to one marker. */
  lemma MarkerAfter(db: Db, draft: Draft, id: nat, join: Join)
    requires join.playerId in db.players
    ensures var (after, row) := Inserted(db, draft, id);
            && after.players.Keys == db.players.Keys
            && var before, marks := db.players[join.playerId].channelSince, after.players[join.playerId].channelSince;
               if draft.join == Some(join) then join.channel in marks && marks[join.channel] == row.id
               else SameMarker(before, marks, join.channel)
  {
    hide RowWith;
  }

  predicate SameMarker(before: map<Channel, nat>, after: map<Channel, nat>, channel: Channel) {
    (channel in after <==> channel in before) && (channel in before ==> after[channel] == before[channel])
  }

  /** A join event lets its player into the channel as of its own row; the last one
      counts, and players who do not join keep the markers they have. */
  lemma {:induction false} JoiningMarks(db: Db, drafts: seq<Draft>, ids: seq<nat>, n: nat, join: Join)
    requires n <= |drafts| && |ids| == |drafts| && join.playerId in db.players
    ensures var (after, rows) := InsertedAll(db, drafts, ids, n);
            && |rows| == n && after.players.Keys == db.players.Keys
            && var marks := after.players[join.playerId].channelSince;
            && (forall k :: 0 <= k < n && drafts[k].join == Some(join) && NeverJoins(drafts, k + 1, n, join) ==>
                  join.channel in marks && marks[join.channel] == rows[k].id)
            && (NeverJoins(drafts, 0, n, join) ==> SameMarker(db.players[join.playerId].channelSince, marks, join.channel))
  {
    hide Inserted, NeverJoins;
    if n > 0 {
      JoiningMarks(db, drafts, ids, n - 1, join);
      MarkerAfter(InsertedAll(db, drafts, ids, n - 1).0, drafts[n - 1], ids[n - 1], join);
      forall k: nat | k <= n ensures NeverJoins(drafts, k, n, join) ==> k == n || (drafts[n - 1].join != Some(join) && NeverJoins(drafts, k, n - 1, join))
      {
        if NeverJoins(drafts, k, n, join) { OneFewer(drafts, k, n, join); }
      }
    }
  }

  lemma OneFewer(drafts: seq<Draft>, k: nat, n: nat, join: Join)
    requires k <= n <= |drafts| && NeverJoins(drafts, k, n, join)
    ensures k == n || (drafts[n - 1].join != Some(join) && NeverJoins(drafts, k, n - 1, join))
  {
  }

  lemma NothingGrows(db: Db)
    requires LogHolds(db.log)
    ensures Grows(db.log, db.log, []) && MarksOnly(db.players, db.players, Latest(db.log))
  {
  }

  lemma MarkingMarks(start: Players, players: Players, join: Join, id: nat, last: nat)
    requires MarksOnly(start, players, last) && id > last
    ensures MarksOnly(start, Marked(players, join, id), last)
  {
  }

  // ---- The protocol ----

  /** Where the critical section has got to: nothing under way; a commit made and
      its broadcast not begun; its frames prepared and not yet sent. */
  datatype Mode = Idle | Committed(before: Db, rows: seq<Event>) | Prepared(before: Db, rows: seq<Event>, frames: map<nat, Frame>)

  datatype System = System(db: Db, subs: map<nat, Sub>, mode: Mode)

  datatype Step =
    | Connect(socket: nat, user: UserId)
    | Close(socket: nat)
    | Subscribe(socket: nat, cursor: nat)
    | Commit(drafts: seq<Draft>, ids: seq<nat>, patches: seq<PlayerPatch>)
    | Seat(user: UserId, player: Player)
    | Unseat(user: UserId)
    | Prepare
    | Deliver

  function Patched(players: Players, patches: seq<PlayerPatch>): Players { map u | u in players :: PatchedBy(u, players[u], patches) }

  /** Whoever has a role has had one from the start. */
  predicate KnownOrigin(p: Player) { p.role.Some? ==> p.originalRole.Some? }

  /** Patches never rewrite the role a player started with. */
  ghost predicate KeepsOrigins(players: Players, patches: seq<PlayerPatch>) {
    forall u :: u in players ==>
      && (players[u].originalRole.Some? ==> PatchedBy(u, players[u], patches).originalRole == players[u].originalRole)
      && KnownOrigin(PatchedBy(u, players[u], patches))
      && PatchedBy(u, players[u], patches).channelSince == players[u].channelSince
  }

  ghost predicate Enabled(sys: System, step: Step) {
    match step
    case Connect(socket, _) => socket !in sys.subs
    case Close(socket) => socket in sys.subs
    case Subscribe(socket, _) => socket in sys.subs && sys.mode.Idle?
    case Commit(drafts, ids, patches) =>
      && sys.mode.Idle? && |ids| == |drafts| && NewIds(sys.db.log, ids)
      && (forall k :: 0 <= k < |drafts| && drafts[k].join.Some? ==> drafts[k].commandId.None?)
      && KeepsOrigins(InsertedAll(sys.db, drafts, ids, |drafts|).0.players, patches)
    case Seat(u, p) => sys.mode.Idle? && u !in sys.db.players && KnownOrigin(p)
    case Unseat(u) => sys.mode.Idle? && u in sys.db.players
    case Prepare => sys.mode.Committed?
    case Deliver => sys.mode.Prepared?
  }

  function CommittedDb(db: Db, drafts: seq<Draft>, ids: seq<nat>, patches: seq<PlayerPatch>): (Db, seq<Event>)
    requires |ids| == |drafts|
  {
    var (after, rows) := InsertedAll(db, drafts, ids, |drafts|);
    (after.(players := Patched(after.players, patches)), rows)
  }

  ghost function Take(sys: System, step: Step): System
    requires Enabled(sys, step)
  {
    match step
    case Connect(socket, user) => sys.(subs := sys.subs[socket := Connected(user)])
    case Close(socket) => sys.(subs := sys.subs[socket := sys.subs[socket].(active := false)])
    case Subscribe(socket, cursor) =>
      sys.(subs := sys.subs[socket := Subscribed(sys.subs[socket], sys.db.players, sys.db.log, cursor)])
    case Commit(drafts, ids, patches) =>
      var (db, rows) := CommittedDb(sys.db, drafts, ids, patches);
      sys.(db := db, mode := Committed(sys.db, rows))
    case Seat(u, p) => sys.(db := sys.db.(players := sys.db.players[u := p]), mode := Committed(sys.db, []))
    case Unseat(u) => sys.(db := sys.db.(players := sys.db.players - {u}), mode := Committed(sys.db, []))
    case Prepare =>
      var subs := map k | k in sys.subs :: Checked(sys.subs[k], sys.db.players);
      System(sys.db, subs, Prepared(sys.mode.before, sys.mode.rows,
             map k | k in subs && FrameFor(subs[k], sys.db.players, sys.mode.rows).Some?
                  :: FrameFor(subs[k], sys.db.players, sys.mode.rows).value))
    case Deliver =>
      sys.(subs := map k | k in sys.subs ::
             if k in sys.mode.frames then Delivered(sys.subs[k], sys.mode.frames[k], sys.db.players, sys.mode.rows, sys.db.log) else sys.subs[k],
           mode := Idle)
  }

  // ---- The invariant ----

  ghost predicate Live(s: Sub) { s.active && s.subscribed }

  /** The subscriber's cursor is the end of the log, and it has been sent every
      event beyond its base that it may see now. */
  ghost predicate UpToDate(db: Db, s: Sub) {
    && s.user in db.players && s.cursor == Latest(db.log) && s.channels == AvailableChannels(db.players[s.user])
    && forall i :: 0 <= i < |db.log| && db.log[i].id > s.base && CanViewEvent(db.log[i], s.user, db.players) ==> db.log[i].id in s.delivered
  }

  /** What one commit changed: the log grew by rows that are at hand, and the
      players that stayed evolved. */
  ghost predicate Moved(before: Db, after: Db, rows: seq<Event>) {
    && Grows(before.log, after.log, rows)
    && forall u :: u in before.players && u in after.players ==>
         KnownOrigin(before.players[u]) && Evolves(before.players[u], after.players[u], Latest(before.log))
  }

  ghost predicate DbHolds(db: Db) { LogHolds(db.log) && forall u :: u in db.players ==> KnownOrigin(db.players[u]) }

  ghost predicate Inv(sys: System) {
    && DbHolds(sys.db)
    && match sys.mode {
      case Idle => forall k :: k in sys.subs && Live(sys.subs[k]) ==> UpToDate(sys.db, sys.subs[k])
      case Committed(before, rows) =>
        Moved(before, sys.db, rows) && forall k :: k in sys.subs && Live(sys.subs[k]) ==> UpToDate(before, sys.subs[k])
      case Prepared(before, rows, frames) =>
        Moved(before, sys.db, rows) && forall k :: k in sys.subs && Live(sys.subs[k]) ==>
          && UpToDate(before, sys.subs[k]) && k in frames && sys.subs[k].user in sys.db.players
          && frames[k] == PreparedFor(sys.subs[k], sys.db.players, rows)
    }
  }

  /** Without a new channel, what may be seen of the old log could be seen before. */
  lemma OldEventsWereVisible(before: Db, after: Db, rows: seq<Event>, u: UserId, e: Event)
    requires Moved(before, after, rows) && u in before.players && u in after.players && e.id <= Latest(before.log)
    requires AvailableChannels(after.players[u]) <= AvailableChannels(before.players[u])
    requires CanViewEvent(e, u, after.players)
    ensures CanViewEvent(e, u, before.players)
  {
    hide Grows;
    if e.scope.ToFaction? {
      assert e.scope.channel in AvailableChannels(after.players[u]);
      assert e.scope.channel in AvailableChannels(before.players[u]);
    }
  }

  lemma {:induction false} MaxIdBounds(rows: seq<Event>, least: nat)
    ensures MaxId(rows, least) >= least && forall r :: r in rows ==> r.id <= MaxId(rows, least)
    ensures MaxId(rows, least) == least || exists r :: r in rows && r.id == MaxId(rows, least)
    decreases |rows|
  {
    if rows != [] {
      var (init, last) := (rows[..|rows| - 1], rows[|rows| - 1]);
      assert rows == init + [last];
      MaxIdBounds(init, least);
      if MaxId(rows, least) == last.id { assert last in rows; }
    }
  }

  lemma InLogAtMostLatest(log: seq<Event>, e: Event)
    requires LogHolds(log) && e in log
    ensures e.id <= Latest(log)
  {
    var i :| 0 <= i < |log| && log[i] == e;
  }

  lemma NewCursorIsLatest(before: seq<Event>, after: seq<Event>, rows: seq<Event>)
    requires Grows(before, after, rows)
    ensures MaxId(rows, Latest(before)) == Latest(after) >= Latest(before)
  {
    MaxIdBounds(rows, Latest(before));
    forall r | r in rows ensures r.id <= Latest(after) { InLogAtMostLatest(after, r); }
    if |before| > 0 {
      assert after[|before| - 1] == before[|before| - 1];
      InLogAtMostLatest(after, after[|before| - 1]);
    }
    if |after| > |before| { assert after[|after| - 1] in rows; }
    else { assert before == after; }
  }

  /** Sending the prepared frame brings a subscriber up to date. */
  lemma DeliveryBringsUpToDate(before: Db, after: Db, rows: seq<Event>, s: Sub)
    requires Moved(before, after, rows) && Live(s) && UpToDate(before, s) && s.user in after.players
    ensures UpToDate(after, Delivered(s, PreparedFor(s, after.players, rows), after.players, rows, after.log))
  {
    hide CanViewEvent, AvailableChannels, Moved;
    GrowsOf(before, after, rows);
    NewCursorIsLatest(before.log, after.log, rows);
    var frame := PreparedFor(s, after.players, rows);
    var t := Delivered(s, frame, after.players, rows, after.log);
    forall i | 0 <= i < |after.log| && after.log[i].id > s.base && CanViewEvent(after.log[i], s.user, after.players)
      ensures after.log[i].id in t.delivered
    {
      if !frame.gains { SentOrAlready(before, after, rows, s, i); }
    }
  }

  lemma GrowsOf(before: Db, after: Db, rows: seq<Event>)
    requires Moved(before, after, rows)
    ensures Grows(before.log, after.log, rows)
  {
  }

  /** Without a new channel, an event that may be seen is new and among the rows,
      or was sent before. */
  lemma SentOrAlready(before: Db, after: Db, rows: seq<Event>, s: Sub, i: nat)
    requires Moved(before, after, rows) && Live(s) && UpToDate(before, s) && s.user in after.players
    requires i < |after.log| && after.log[i].id > s.base && CanViewEvent(after.log[i], s.user, after.players)
    requires AvailableChannels(after.players[s.user]) <= s.channels
    ensures after.log[i].id in s.delivered || after.log[i].id in VisibleIds(rows, s.cursor, s.user, after.players)
  {
    hide CanViewEvent, AvailableChannels;
    if i < |before.log| {
      assert after.log[i] == before.log[i];
      InLogAtMostLatest(before.log, before.log[i]);
      OldEventsWereVisible(before, after, rows, s.user, after.log[i]);
    } else {
      LaterIsNewer(before.log, after.log, i);
      var k :| 0 <= k < |rows| && rows[k] == after.log[i];
    }
  }

  lemma LaterIsNewer(before: seq<Event>, after: seq<Event>, i: nat)
    requires LogHolds(after) && before <= after && |before| <= i < |after|
    ensures after[i].id > Latest(before)
  {
    if |before| > 0 { assert after[|before| - 1] == before[|before| - 1]; }
  }

  lemma SubscribedIsUpToDate(db: Db, s: Sub, cursor: nat)
    requires LogHolds(db.log) && s.active && !s.subscribed
    ensures var t := Subscribed(s, db.players, db.log, cursor); Live(t) ==> UpToDate(db, t) && t.base == cursor
  {
    hide CanViewEvent, AvailableChannels;
  }

  lemma CommitMoves(sys: System, drafts: seq<Draft>, ids: seq<nat>, patches: seq<PlayerPatch>)
    requires DbHolds(sys.db) && Enabled(sys, Commit(drafts, ids, patches))
    ensures var (db, rows) := CommittedDb(sys.db, drafts, ids, patches); DbHolds(db) && Moved(sys.db, db, rows)
  {
    hide InsertedAll, PatchedBy;
    InsertingGrows(sys.db, drafts, ids, |drafts|);
  }

  lemma SeatingMoves(db: Db, players: Players)
    requires DbHolds(db) && forall u :: u in players ==> KnownOrigin(players[u]) && (u in db.players ==> players[u] == db.players[u])
    ensures DbHolds(db.(players := players)) && Moved(db, db.(players := players), [])
  {
  }

  lemma StepKeepsInv(sys: System, step: Step)
    requires Inv(sys) && Enabled(sys, step)
    ensures Inv(Take(sys, step))
  {
    hide UpToDate, Moved, Delivered, Subscribed, PreparedFor, CommittedDb, DbHolds, KeepsOrigins, NewIds;
    match step
    case Connect(_, _) =>
    case Close(_) =>
    case Subscribe(socket, cursor) => SubscribeKeepsInv(sys, socket, cursor);
    case Commit(drafts, ids, patches) => CommitMoves(sys, drafts, ids, patches);
    case Seat(u, p) => SeatKeepsInv(sys, u, p);
    case Unseat(u) => UnseatKeepsInv(sys, u);
    case Prepare => PrepareKeepsInv(sys);
    case Deliver => DeliverKeepsInv(sys);
  }

  lemma SubscribeKeepsInv(sys: System, socket: nat, cursor: nat)
    requires Inv(sys) && Enabled(sys, Subscribe(socket, cursor))
    ensures Inv(Take(sys, Subscribe(socket, cursor)))
  {
    hide UpToDate;
    var s := sys.subs[socket];
    if s.active && !s.subscribed { SubscribedIsUpToDate(sys.db, s, cursor); }
  }

  lemma SeatKeepsInv(sys: System, u: UserId, p: Player)
    requires Inv(sys) && Enabled(sys, Seat(u, p))
    ensures Inv(Take(sys, Seat(u, p)))
  {
    hide UpToDate, Moved;
    SeatingMoves(sys.db, sys.db.players[u := p]);
  }

  lemma UnseatKeepsInv(sys: System, u: UserId)
    requires Inv(sys) && Enabled(sys, Unseat(u))
    ensures Inv(Take(sys, Unseat(u)))
  {
    hide UpToDate, Moved;
    SeatingMoves(sys.db, sys.db.players - {u});
  }

  lemma PrepareKeepsInv(sys: System)
    requires Inv(sys) && sys.mode.Committed?
    ensures Inv(Take(sys, Prepare))
  {
    hide UpToDate, Moved, PreparedFor, DbHolds;
    var t := Take(sys, Prepare);
    forall k | k in t.subs && Live(t.subs[k])
      ensures UpToDate(sys.mode.before, t.subs[k]) && t.subs[k].user in sys.db.players && k in t.mode.frames
    {
      assert t.subs[k] == sys.subs[k];
    }
  }

  lemma DeliverKeepsInv(sys: System)
    requires Inv(sys) && sys.mode.Prepared?
    ensures Inv(Take(sys, Deliver))
  {
    hide UpToDate, Moved, PreparedFor, DbHolds, AvailableChannels;
    var t := Take(sys, Deliver);
    forall k | k in t.subs && Live(t.subs[k]) ensures UpToDate(t.db, t.subs[k]) {
      DeliveryBringsUpToDate(sys.mode.before, sys.db, sys.mode.rows, sys.subs[k]);
    }
  }

  ghost predicate Run(sys: System, steps: seq<Step>, end: System)
    decreases |steps|
  {
    if steps == [] then sys == end else Enabled(sys, steps[0]) && Run(Take(sys, steps[0]), steps[1..], end)
  }

  ghost predicate Init(sys: System) {
    sys.db.log == [] && sys.subs == map[] && sys.mode == Idle && forall u :: u in sys.db.players ==> KnownOrigin(sys.db.players[u])
  }

  lemma {:induction false} RunKeepsInv(sys: System, steps: seq<Step>, end: System)
    requires Inv(sys) && Run(sys, steps, end)
    ensures Inv(end)
    decreases |steps|
  {
    hide Inv, Enabled, Take;
    if steps != [] {
      StepKeepsInv(sys, steps[0]);
      RunKeepsInv(Take(sys, steps[0]), steps[1..], end);
    }
  }

  /** After every broadcast, whatever commits, joins, closes and subscriptions
      came before: a subscriber has been sent every logged event beyond its base
      that it may see in the current state, also the history of channels it has
      gained, and its cursor is the end of the log. With base 0 that is all of them. */
  lemma DeliveryRefinesTheLog(start: System, steps: seq<Step>, sys: System, socket: nat, e: Event)
    requires Init(start) && Run(start, steps, sys) && sys.mode.Idle?
    requires socket in sys.subs && Live(sys.subs[socket])
    ensures sys.subs[socket].cursor == Latest(sys.db.log)
    ensures e in sys.db.log && e.id > sys.subs[socket].base && CanViewEvent(e, sys.subs[socket].user, sys.db.players) ==>
              e.id in sys.subs[socket].delivered
    ensures sys.subs[socket].base == 0 && e in sys.db.log ==> e.id > sys.subs[socket].base
  {
    hide CanViewEvent, AvailableChannels;
    RunKeepsInv(start, steps, sys);
    assert UpToDate(sys.db, sys.subs[socket]);
  }

  /** A socket's cursor and what it has been sent only ever grow. */
  lemma StepNeverTakesBack(sys: System, step: Step, socket: nat)
    requires Inv(sys) && Enabled(sys, step) && socket in sys.subs
    ensures socket in Take(sys, step).subs
    ensures sys.subs[socket].delivered <= Take(sys, step).subs[socket].delivered
    ensures Live(sys.subs[socket]) ==> sys.subs[socket].cursor <= Take(sys, step).subs[socket].cursor
  {
    hide UpToDate, CanViewEvent, AvailableChannels, Moved, DbHolds, CommittedDb, KeepsOrigins;
    if step.Deliver? {
      if Live(sys.subs[socket]) { MaxIdBounds(sys.mode.rows, sys.subs[socket].cursor); }
    }
  }

  lemma {:induction false} CursorNeverDecreases(sys: System, steps: seq<Step>, end: System, socket: nat)
    requires Inv(sys) && Run(sys, steps, end) && socket in sys.subs && Live(sys.subs[socket])
    ensures socket in end.subs && sys.subs[socket].delivered <= end.subs[socket].delivered
    ensures Live(end.subs[socket]) ==> sys.subs[socket].cursor <= end.subs[socket].cursor
    decreases |steps|
  {
    hide Inv, Enabled, Take;
    if steps != [] {
      StepKeepsInv(sys, steps[0]);
      StepNeverTakesBack(sys, steps[0], socket);
      var next := Take(sys, steps[0]);
      if Live(next.subs[socket]) {
        CursorNeverDecreases(next, steps[1..], end, socket);
      } else {
        ClosedStaysClosed(sys, steps[0], socket);
        ClosedForGood(next, steps[1..], end, socket);
      }
    }
  }

  lemma ClosedStaysClosed(sys: System, step: Step, socket: nat)
    requires Enabled(sys, step) && socket in sys.subs
    ensures socket in Take(sys, step).subs
    ensures sys.subs[socket].subscribed ==> Take(sys, step).subs[socket].subscribed
    ensures !sys.subs[socket].active ==> !Take(sys, step).subs[socket].active
  {
    hide CommittedDb, KeepsOrigins, NewIds;
  }

  lemma {:induction false} ClosedForGood(sys: System, steps: seq<Step>, end: System, socket: nat)
    requires Inv(sys) && Run(sys, steps, end) && socket in sys.subs && !sys.subs[socket].active
    ensures socket in end.subs && !end.subs[socket].active && sys.subs[socket].delivered <= end.subs[socket].delivered
    decreases |steps|
  {
    hide Inv, Enabled, Take;
    if steps != [] {
      StepKeepsInv(sys, steps[0]);
      StepNeverTakesBack(sys, steps[0], socket);
      ClosedStaysClosed(sys, steps[0], socket);
      ClosedForGood(Take(sys, steps[0]), steps[1..], end, socket);
    }
  }

  // ---- Nothing else is sent ----

  ghost predicate IsVisible(db: Db, user: UserId, id: nat) {
    exists e :: e in db.log && e.id == id && CanViewEvent(e, user, db.players)
  }

  lemma VisibleIdsAreVisible(db: Db, events: seq<Event>, after: int, user: UserId, id: nat)
    requires id in VisibleIds(events, after, user, db.players) && forall e :: e in events ==> e in db.log
    ensures IsVisible(db, user, id)
  {
    hide CanViewEvent;
    var i :| 0 <= i < |events| && events[i].id > after && CanViewEvent(events[i], user, db.players) && events[i].id == id;
    assert events[i] in events;
  }

  /** A step sends a socket nothing but logged events that its user may see in the
      state they are sent from. */
  lemma StepSendsOnlyTheVisible(sys: System, step: Step, socket: nat, id: nat)
    requires Inv(sys) && Enabled(sys, step) && socket in Take(sys, step).subs && id in Take(sys, step).subs[socket].delivered
    ensures (socket in sys.subs && id in sys.subs[socket].delivered) || IsVisible(sys.db, Take(sys, step).subs[socket].user, id)
    ensures socket in sys.subs ==> Take(sys, step).subs[socket].user == sys.subs[socket].user
  {
    hide CanViewEvent, AvailableChannels, UpToDate, DbHolds, CommittedDb, KeepsOrigins, VisibleIds, IsVisible, NewIds;
    match step
    case Subscribe(k, cursor) =>
      if k == socket && id in VisibleIds(sys.db.log, cursor, sys.subs[k].user, sys.db.players) {
        VisibleIdsAreVisible(sys.db, sys.db.log, cursor, sys.subs[k].user, id);
      }
    case Deliver =>
      var user, rows, log := sys.subs[socket].user, sys.mode.rows, sys.db.log;
      if id in VisibleIds(log, -1, user, sys.db.players) {
        VisibleIdsAreVisible(sys.db, log, -1, user, id);
      } else if id in VisibleIds(rows, sys.subs[socket].cursor, user, sys.db.players) {
        VisibleIdsAreVisible(sys.db, rows, sys.subs[socket].cursor, user, id);
      }
    case _ =>
  }

  /** Somewhere along the run the user could see the event. */
  ghost predicate WasVisible(sys: System, steps: seq<Step>, user: UserId, id: nat)
    decreases |steps|
  {
    IsVisible(sys.db, user, id) || (steps != [] && Enabled(sys, steps[0]) && WasVisible(Take(sys, steps[0]), steps[1..], user, id))
  }

  lemma {:induction false} RunSendsOnlyTheVisible(sys: System, steps: seq<Step>, end: System, socket: nat, id: nat)
    requires Inv(sys) && Run(sys, steps, end) && socket in end.subs && id in end.subs[socket].delivered
    ensures (socket in sys.subs && id in sys.subs[socket].delivered) || WasVisible(sys, steps, end.subs[socket].user, id)
    ensures socket in sys.subs ==> end.subs[socket].user == sys.subs[socket].user
    decreases |steps|
  {
    hide Inv, Enabled, Take, IsVisible;
    if steps != [] {
      var next := Take(sys, steps[0]);
      StepKeepsInv(sys, steps[0]);
      RunSendsOnlyTheVisible(next, steps[1..], end, socket, id);
      if socket in next.subs && id in next.subs[socket].delivered { StepSendsOnlyTheVisible(sys, steps[0], socket, id); }
      if socket in sys.subs { SocketsStay(sys, steps[0], socket); }
    }
  }

  lemma SocketsStay(sys: System, step: Step, socket: nat)
    requires Enabled(sys, step) && socket in sys.subs
    ensures socket in Take(sys, step).subs && Take(sys, step).subs[socket].user == sys.subs[socket].user
  {
    hide CommittedDb, KeepsOrigins, NewIds, VisibleIds;
  }

  /** From an empty hub on, a socket has been sent nothing that was not at some point
      in the log and open to its user. */
  lemma OnlyTheVisibleIsSent(start: System, steps: seq<Step>, end: System, socket: nat, id: nat)
    requires Init(start) && Run(start, steps, end) && socket in end.subs && id in end.subs[socket].delivered
    ensures WasVisible(start, steps, end.subs[socket].user, id)
  {
    hide Run, WasVisible;
    RunSendsOnlyTheVisible(start, steps, end, socket, id);
  }
}
