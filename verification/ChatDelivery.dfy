/** One client of global chat: its connection cursor (apps/client/src/api/chat-live.ts)
    and its store, updated together as frames arrive. */
module GlobalChatConnection {
  import opened ChatTypes
  import ChatState

  datatype Client = Client(cursor: nat, state: ChatState.ChatState)

  function Received(c: Client, frame: ServerFrame): Client {
    match frame
    case History(w) => Client(w.cursor, ChatState.WithHistory(c.state, w))
    case Message(m) => Client(m.id, ChatState.WithMessage(c.state, m))
  }

  class Connection {
    var cursor: nat
    var state: ChatState.ChatState

    constructor (initialCursor: nat, state: ChatState.ChatState)
      ensures View() == Client(initialCursor, state)
    {
      cursor := initialCursor;
      this.state := state;
    }

    function View(): Client
      reads this
    {
      Client(cursor, state)
    }

    method Receive(frame: ServerFrame)
      modifies this
      ensures View() == Received(old(View()), frame)
    {
      match frame {
        case History(w) =>
          cursor := w.cursor;
          state := ChatState.WithHistory(state, w);
        case Message(m) =>
          cursor := m.id;
          state := ChatState.WithMessage(state, m);
      }
    }
  }
}

/** Global chat end to end, as a protocol over its awaits: posts commit and are
    then published, a subscription reads its window some time between its frame
    arriving and its history frame being sent, the socket delivers in order or
    drops, older pages are fetched on the side, and the client reconnects with
    the cursor it has reached. */
module ChatDelivery {
  import opened Wrappers
  import opened Bounds
  import opened Slices
  import opened ChatTypes
  import opened ChatState
  import opened GlobalChatRepository
  import opened GlobalChatHub
  import opened GlobalChatConnection

  /** How far the current socket's subscription has got on the server. */
  datatype Stage = Opened | Querying | Queried(window: Window) | Live

  /** The current socket: the server's subscriber for it and how many of the
      frames sent on it the client has received. */
  datatype Link = Down | Up(sub: Sub, stage: Stage, received: nat)

  datatype PageRequest = Asked(before: nat) | Answered(before: nat, page: seq<ChatMessage>)

  datatype System = System(
    log: seq<ChatMessage>,
    /** The post queue lets one post through at a time, so at most the newest
        row is committed but not yet published. */
    unpublished: bool,
    link: Link,
    client: Client,
    readCursor: Option<nat>,
    pages: seq<PageRequest>)

  datatype Step =
    | Commit(userId: UserId, displayName: Text, content: ChatContent, createdAt: int)
    | Publish
    | Connect
    | SubscribeFrame
    | ReadWindow
    | SendHistory
    | Receive
    | Drop
    | AskOlder
    | AnswerOlder(i: nat)
    | TakeOlder(i: nat)
    | FailOlder(i: nat)

  predicate Enabled(s: System, step: Step) {
    match step
    case Commit(_, _, _, _) => !s.unpublished
    case Publish => s.unpublished && s.log != []
    case Connect => s.link.Down?
    case SubscribeFrame => s.link.Up? && s.link.stage.Opened?
    case ReadWindow => s.link.Up? && s.link.stage.Querying?
    case SendHistory => s.link.Up? && s.link.stage.Queried?
    case Receive => s.link.Up? && s.link.received < |s.link.sub.sent|
    case Drop => s.link.Up?
    case AskOlder => s.client.state.messages != []
    case AnswerOlder(i) => i < |s.pages| && s.pages[i].Asked?
    case TakeOlder(i) => i < |s.pages| && s.pages[i].Answered?
    case FailOlder(i) => i < |s.pages|
  }

  function RemovedAt<T>(xs: seq<T>, i: nat): seq<T>
    requires i < |xs|
  {
    xs[..i] + xs[i + 1..]
  }

  function Next(s: System, step: Step): (t: System)
    requires Enabled(s, step)
  {
    match step
    case Commit(userId, displayName, content, createdAt) =>
      s.(log := s.log + [ChatMessage(|s.log| + 1, userId, displayName, content, createdAt)], unpublished := true)
    case Publish =>
      s.(unpublished := false,
         link := if s.link.Down? then Down
                 else s.link.(sub := Published(s.link.sub, s.log[|s.log| - 1])))
    case Connect => s.(link := Up(CONNECTED, Opened, 0))
    case SubscribeFrame => s.(link := s.link.(sub := Subscribing(s.link.sub), stage := Querying))
    case ReadWindow =>
      s.(link := s.link.(stage := Queried(SubscriptionWindow(s.log, s.client.cursor, s.readCursor))))
    case SendHistory =>
      s.(link := s.link.(sub := Subscribed(s.link.sub, s.link.stage.window), stage := Live))
    case Receive =>
      s.(client := Received(s.client, s.link.sub.sent[s.link.received]),
         link := s.link.(received := s.link.received + 1))
    case Drop => s.(link := Down)
    case AskOlder => s.(pages := s.pages + [Asked(s.client.state.messages[0].id)])
    case AnswerOlder(i) => s.(pages := s.pages[i := Answered(s.pages[i].before, OlderPage(s.log, s.pages[i].before))])
    case TakeOlder(i) =>
      s.(client := s.client.(state := WithOlderPage(s.client.state, s.pages[i].page)), pages := RemovedAt(s.pages, i))
    case FailOlder(i) => s.(pages := RemovedAt(s.pages, i))
  }

  /** A fresh client of a log that may already hold messages. */
  predicate Initial(s: System) {
    && !s.unpublished && s.link.Down? && s.pages == []
    && s.client == Client(0, INITIAL)
    && (s.readCursor.Some? ==> s.readCursor.value <= |s.log|)
  }

  ghost predicate Run(s: System, steps: seq<Step>, t: System)
    decreases |steps|
  {
    if steps == [] then t == s
    else Enabled(s, steps[0]) && Run(Next(s, steps[0]), steps[1..], t)
  }

  // ---- The invariant ----

  function PublishedCount(s: System): int { |s.log| - (if s.unpublished then 1 else 0) }

  /** The cursor after receiving these live frames. */
  function EndOf(cursor: nat, frames: seq<ServerFrame>): nat {
    if frames == [] then cursor
    else if frames[|frames| - 1].Message? then frames[|frames| - 1].message.id
    else cursor
  }

  /** Live frames that follow on from `cursor`: each carries the next log entry,
      or repeats the one the cursor is already at. */
  ghost predicate FollowOn(cursor: nat, frames: seq<ServerFrame>, log: seq<ChatMessage>) {
    forall i :: 0 <= i < |frames| ==>
      && frames[i].Message?
      && var id := frames[i].message.id;
         var before := EndOf(cursor, frames[..i]);
         1 <= id <= |log| && frames[i].message == log[id - 1] && before <= id <= before + 1
  }

  /** What is still on its way brings the client to everything published. */
  ghost predicate BringsUpToDate(cursor: nat, frames: seq<ServerFrame>, log: seq<ChatMessage>, published: int) {
    FollowOn(cursor, frames, log) && published <= EndOf(cursor, frames) <= |log|
  }

  ghost predicate Buffered(sub: Sub, log: seq<ChatMessage>, published: int) {
    && sub.active && !sub.subscribed && sub.sent == []
    && |sub.pending| <= published <= |log|
    && sub.pending == log[published - |sub.pending|..published]
  }

  /** A window read for this client that it has not yet received. */
  ghost predicate WindowFits(w: Window, st: ChatState, pages: seq<PageRequest>, log: seq<ChatMessage>) {
    && Extends(w, st, log)
    && w.oldestRetainedId <= Oldest(|log|)
    && forall i :: 0 <= i < |pages| ==> First(st) <= pages[i].before || w.oldestRetainedId >= pages[i].before
  }

  /** A page request still under way. Once the held stretch has moved past it,
      the floor filters out whatever it brings. */
  ghost predicate PageFits(r: PageRequest, st: ChatState, log: seq<ChatMessage>) {
    && st.messages != [] && 1 <= r.before <= st.cursor + 1 <= |log| + 1
    && (First(st) <= r.before || (st.oldestRetainedId >= r.before && Oldest(|log|) >= r.before))
    && (st.oldestRetainedId == 0 ==> r.before == 1)
    && PageIsLog(r, log)
  }

  /** An answer holds the log entries right before the ones asked about. */
  ghost predicate PageIsLog(r: PageRequest, log: seq<ChatMessage>)
    requires 1 <= r.before <= |log| + 1
  {
    r.Answered? ==> |r.page| < r.before && |r.page| <= CHAT_PAGE_SIZE && r.page == log[r.before - 1 - |r.page|..r.before - 1]
  }

  ghost predicate PagesFit(pages: seq<PageRequest>, st: ChatState, log: seq<ChatMessage>) {
    forall i :: 0 <= i < |pages| ==> PageFits(pages[i], st, log)
  }

  /** A store that has seen a history frame and is still empty knows there is nothing older. */
  ghost predicate Settled(st: ChatState) {
    st.messages == [] ==> !st.hasOlder && st.oldestRetainedId == 0
  }

  /** On a live socket either the history frame is still to come or it has been received. */
  ghost predicate LiveFits(sub: Sub, received: nat, st: ChatState, pages: seq<PageRequest>, log: seq<ChatMessage>, published: int) {
    && sub.active && sub.subscribed && received <= |sub.sent|
    && if received == 0 then
         && sub.sent != [] && sub.sent[0].History?
         && WindowFits(sub.sent[0].window, st, pages, log)
         && BringsUpToDate(sub.sent[0].window.cursor, sub.sent[1..], log, published)
       else
         BringsUpToDate(st.cursor, sub.sent[received..], log, published) && Settled(st)
  }

  ghost predicate LinkFits(link: Link, st: ChatState, pages: seq<PageRequest>, log: seq<ChatMessage>, published: int) {
    match link
    case Down => true
    case Up(sub, stage, received) =>
      match stage
      case Opened => Buffered(sub, log, published) && !sub.subscribing && received == 0
      case Querying => Buffered(sub, log, published) && received == 0
      case Queried(w) => Buffered(sub, log, published) && received == 0
                         && WindowFits(w, st, pages, log) && published - |sub.pending| <= w.cursor
      case Live => LiveFits(sub, received, st, pages, log, published)
  }

  ghost predicate StoreFits(s: System) {
    && IsLog(s.log) && (s.unpublished ==> s.log != [])
    && s.client.cursor == s.client.state.cursor
    && Contiguous(s.client.state, s.log)
    && (s.readCursor.Some? ==> s.readCursor.value <= |s.log|)
  }

  ghost predicate Inv(s: System) {
    && StoreFits(s)
    && PagesFit(s.pages, s.client.state, s.log)
    && LinkFits(s.link, s.client.state, s.pages, s.log, PublishedCount(s))
  }

  // ---- Live frames that follow on ----

  lemma {:induction false} FollowOnAppend(cursor: nat, frames: seq<ServerFrame>, m: ChatMessage, log: seq<ChatMessage>)
    requires FollowOn(cursor, frames, log)
    requires 1 <= m.id <= |log| && m == log[m.id - 1] && EndOf(cursor, frames) <= m.id <= EndOf(cursor, frames) + 1
    ensures FollowOn(cursor, frames + [Message(m)], log)
    ensures EndOf(cursor, frames + [Message(m)]) == m.id
  {
    hide EndOf;
    var all := frames + [Message(m)];
    EndOfLonger(cursor, frames, m);
    assert frames[..|frames|] == frames;
    forall i | 0 <= i < |all|
      ensures all[i].Message?
      ensures 1 <= all[i].message.id <= |log| && all[i].message == log[all[i].message.id - 1]
      ensures EndOf(cursor, all[..i]) <= all[i].message.id <= EndOf(cursor, all[..i]) + 1
    {
      PrefixOfLonger(frames, Message(m), i);
    }
  }

  lemma EndOfLonger(cursor: nat, frames: seq<ServerFrame>, m: ChatMessage)
    ensures EndOf(cursor, frames + [Message(m)]) == m.id
  {
  }

  lemma {:induction false} FollowOnTail(cursor: nat, frames: seq<ServerFrame>, log: seq<ChatMessage>)
    requires FollowOn(cursor, frames, log) && frames != []
    ensures frames[0].Message? && 1 <= frames[0].message.id <= |log| && frames[0].message == log[frames[0].message.id - 1]
    ensures cursor <= frames[0].message.id <= cursor + 1
    ensures FollowOn(frames[0].message.id, frames[1..], log)
    ensures EndOf(frames[0].message.id, frames[1..]) == EndOf(cursor, frames)
  {
    var rest, c := frames[1..], frames[0].message.id;
    assert EndOf(cursor, frames[..0]) == cursor;
    forall i | 0 <= i < |rest|
      ensures rest[i].Message?
      ensures 1 <= rest[i].message.id <= |log| && rest[i].message == log[rest[i].message.id - 1]
      ensures EndOf(c, rest[..i]) <= rest[i].message.id <= EndOf(c, rest[..i]) + 1
    {
      assert rest[i] == frames[i + 1];
      assert frames[..i + 1][1..] == rest[..i];
      if i > 0 { assert rest[..i][i - 1] == frames[..i + 1][i]; }
    }
  }

  lemma {:induction false} FollowOnSlice(log: seq<ChatMessage>, a: nat, b: nat)
    requires IsLog(log) && a <= b <= |log|
    ensures FollowOn(a, AsFrames(log[a..b]), log)
    ensures EndOf(a, AsFrames(log[a..b])) == b
  {
    hide EndOf, AsFrames;
    var frames := AsFrames(log[a..b]);
    FramesEndAt(log, a, b, b - a);
    assert frames[..b - a] == frames;
    forall i | 0 <= i < |frames|
      ensures frames[i].Message? && frames[i].message == log[a + i] && EndOf(a, frames[..i]) == a + i
    {
      FramesEndAt(log, a, b, i);
    }
  }

  lemma FramesEndAt(log: seq<ChatMessage>, a: nat, b: nat, i: nat)
    requires IsLog(log) && a <= b <= |log| && i <= b - a
    ensures var frames := AsFrames(log[a..b]);
      |frames| == b - a && EndOf(a, frames[..i]) == a + i && (i < b - a ==> frames[i] == Message(log[a + i]))
  {
    var frames := AsFrames(log[a..b]);
    if i > 0 { assert frames[..i][i - 1] == frames[i - 1] == Message(log[a + i - 1]); }
  }

  // ---- A longer log changes nothing that was already right ----

  ghost predicate Grows(log: seq<ChatMessage>, longer: seq<ChatMessage>) {
    IsLog(log) && IsLog(longer) && |longer| == |log| + 1 && longer[..|log|] == log
  }

  lemma SliceOfLonger(log: seq<ChatMessage>, longer: seq<ChatMessage>, a: nat, b: nat)
    requires Grows(log, longer) && a <= b <= |log|
    ensures longer[a..b] == log[a..b]
  {
    SliceOfPrefix(longer, |log|, a, b);
  }

  lemma StoreOfLonger(st: ChatState, log: seq<ChatMessage>, longer: seq<ChatMessage>)
    requires Grows(log, longer) && Contiguous(st, log)
    ensures Contiguous(st, longer)
  {
    SliceOfLonger(log, longer, First(st) - 1, st.cursor);
  }

  lemma PagesOfLonger(pages: seq<PageRequest>, st: ChatState, log: seq<ChatMessage>, longer: seq<ChatMessage>)
    requires Grows(log, longer) && PagesFit(pages, st, log)
    ensures PagesFit(pages, st, longer)
  {
    hide PageFits, Grows;
    forall i | 0 <= i < |pages| ensures PageFits(pages[i], st, longer) {
      OnePageOfLonger(pages[i], st, log, longer);
    }
  }

  lemma OnePageOfLonger(r: PageRequest, st: ChatState, log: seq<ChatMessage>, longer: seq<ChatMessage>)
    requires Grows(log, longer) && PageFits(r, st, log)
    ensures PageFits(r, st, longer)
  {
    hide PageIsLog, IsLog;
    PageTextOfLonger(r, log, longer);
  }

  lemma PageTextOfLonger(r: PageRequest, log: seq<ChatMessage>, longer: seq<ChatMessage>)
    requires Grows(log, longer) && 1 <= r.before <= |log| + 1 && PageIsLog(r, log)
    ensures PageIsLog(r, longer)
  {
    hide Grows;
    GrownLength(log, longer);
    if r.Answered? { SliceOfLonger(log, longer, r.before - 1 - |r.page|, r.before - 1); }
  }

  lemma GrownLength(log: seq<ChatMessage>, longer: seq<ChatMessage>)
    requires Grows(log, longer)
    ensures |longer| == |log| + 1
  {
  }

  lemma WindowOfLonger(w: Window, st: ChatState, pages: seq<PageRequest>, log: seq<ChatMessage>, longer: seq<ChatMessage>)
    requires Grows(log, longer) && WindowFits(w, st, pages, log)
    ensures WindowFits(w, st, pages, longer)
  {
    SliceOfLonger(log, longer, w.cursor - |w.messages|, w.cursor);
  }

  lemma FramesOfLonger(cursor: nat, frames: seq<ServerFrame>, log: seq<ChatMessage>, longer: seq<ChatMessage>, published: int)
    requires Grows(log, longer) && BringsUpToDate(cursor, frames, log, published)
    ensures BringsUpToDate(cursor, frames, longer, published)
  {
    forall i | 0 <= i < |log| ensures longer[i] == log[i] { assert longer[..|log|][i] == log[i]; }
  }

  lemma LinkOfLonger(link: Link, st: ChatState, pages: seq<PageRequest>, log: seq<ChatMessage>, longer: seq<ChatMessage>, published: int)
    requires Grows(log, longer) && LinkFits(link, st, pages, log, published)
    ensures LinkFits(link, st, pages, longer, published)
  {
    if link.Up? {
      hide BringsUpToDate, WindowFits;
      var sub := link.sub;
      match link.stage {
        case Live =>
          if link.received == 0 {
            WindowOfLonger(sub.sent[0].window, st, pages, log, longer);
            FramesOfLonger(sub.sent[0].window.cursor, sub.sent[1..], log, longer, published);
          } else {
            FramesOfLonger(st.cursor, sub.sent[link.received..], log, longer, published);
          }
        case Queried(w) =>
          WindowOfLonger(w, st, pages, log, longer);
          SliceOfLonger(log, longer, published - |sub.pending|, published);
        case _ =>
          SliceOfLonger(log, longer, published - |sub.pending|, published);
      }
    }
  }

  // ---- Each step keeps the invariant ----

  lemma CommitKeepsInv(s: System, step: Step)
    requires Inv(s) && step.Commit? && Enabled(s, step)
    ensures Inv(Next(s, step))
  {
    hide PagesFit, LinkFits, Contiguous;
    var t := Next(s, step);
    assert t.log[..|s.log|] == s.log;
    StoreOfLonger(s.client.state, s.log, t.log);
    PagesOfLonger(s.pages, s.client.state, s.log, t.log);
    LinkOfLonger(s.link, s.client.state, s.pages, s.log, t.log, PublishedCount(s));
  }

  lemma PublishBuffered(sub: Sub, log: seq<ChatMessage>)
    requires IsLog(log) && log != [] && Buffered(sub, log, |log| - 1)
    ensures Buffered(Published(sub, log[|log| - 1]), log, |log|)
  {
  }

  lemma PublishLive(sub: Sub, received: nat, st: ChatState, pages: seq<PageRequest>, log: seq<ChatMessage>)
    requires IsLog(log) && log != [] && LiveFits(sub, received, st, pages, log, |log| - 1)
    ensures LiveFits(Published(sub, log[|log| - 1]), received, st, pages, log, |log|)
  {
    hide FollowOn, WindowFits;
    var m := log[|log| - 1];
    var next := Published(sub, m);
    if received == 0 {
      FollowOnAppend(sub.sent[0].window.cursor, sub.sent[1..], m, log);
      assert next.sent[1..] == sub.sent[1..] + [Message(m)];
    } else {
      FollowOnAppend(st.cursor, sub.sent[received..], m, log);
      assert next.sent[received..] == sub.sent[received..] + [Message(m)];
    }
  }

  lemma PublishKeepsInv(s: System)
    requires Inv(s) && Enabled(s, Publish)
    ensures Inv(Next(s, Publish))
  {
    hide PagesFit, Contiguous, LiveFits, WindowFits, Published;
    if s.link.Up? {
      if s.link.stage.Live? {
        PublishLive(s.link.sub, s.link.received, s.client.state, s.pages, s.log);
      } else {
        PublishBuffered(s.link.sub, s.log);
        PublishedKeeps(s.link.sub, s.log[|s.log| - 1]);
      }
    }
  }

  lemma PublishedKeeps(sub: Sub, m: ChatMessage)
    ensures Published(sub, m).subscribing == sub.subscribing
    ensures !sub.subscribed ==> |Published(sub, m).pending| == |sub.pending| + 1
  {
  }

  lemma ReadWindowKeepsInv(s: System)
    requires Inv(s) && Enabled(s, ReadWindow)
    ensures Inv(Next(s, ReadWindow))
  {
    hide SubscriptionWindow, WindowFits, Contiguous, PagesFit, Buffered, IsLog;
    WindowReadFits(s.client.state, s.pages, s.log, s.readCursor);
    BufferedBounds(s.link.sub, s.log, PublishedCount(s));
  }

  lemma BufferedBounds(sub: Sub, log: seq<ChatMessage>, published: int)
    requires Buffered(sub, log, published)
    ensures |sub.pending| <= published <= |log|
  {
  }

  lemma WindowReadFits(st: ChatState, pages: seq<PageRequest>, log: seq<ChatMessage>, readCursor: Option<nat>)
    requires IsLog(log) && Contiguous(st, log) && PagesFit(pages, st, log) && (readCursor.Some? ==> readCursor.value <= |log|)
    ensures var w := SubscriptionWindow(log, st.cursor, readCursor);
            w.cursor == |log| && WindowFits(w, st, pages, log)
  {
    hide SubscriptionWindow, PageFits, Contiguous, Extends, IsLog;
    var w := SubscriptionWindow(log, st.cursor, readCursor);
    WindowReadExtends(st, log, readCursor);
    forall i | 0 <= i < |pages| ensures First(st) <= pages[i].before || w.oldestRetainedId >= pages[i].before {
      PageOrFloor(pages[i], st, log);
    }
  }

  lemma PageOrFloor(r: PageRequest, st: ChatState, log: seq<ChatMessage>)
    requires PageFits(r, st, log)
    ensures First(st) <= r.before || Oldest(|log|) >= r.before
  {
    hide PageIsLog;
  }

  lemma WindowReadExtends(st: ChatState, log: seq<ChatMessage>, readCursor: Option<nat>)
    requires IsLog(log) && Contiguous(st, log) && (readCursor.Some? ==> readCursor.value <= |log|)
    ensures var w := SubscriptionWindow(log, st.cursor, readCursor);
            w.cursor == |log| && w.oldestRetainedId == Oldest(|log|) && Extends(w, st, log)
  {
    hide SubscriptionWindow, IsLog;
    WindowRunsOn(log, st.cursor, readCursor);
  }

  lemma SendHistoryKeepsInv(s: System)
    requires Inv(s) && Enabled(s, SendHistory)
    ensures Inv(Next(s, SendHistory))
  {
    hide PagesFit, Contiguous, WindowFits, Buffered, LiveFits, IsLog, Subscribed;
    FlushedFits(s.link.sub, s.link.stage.window, s.client.state, s.pages, s.log, PublishedCount(s));
  }

  /** After the flush the history frame is still to come, with what follows it. */
  lemma FlushedFits(sub: Sub, w: Window, st: ChatState, pages: seq<PageRequest>, log: seq<ChatMessage>, published: int)
    requires IsLog(log) && Buffered(sub, log, published) && WindowFits(w, st, pages, log) && published - |sub.pending| <= w.cursor
    ensures LiveFits(Subscribed(sub, w), 0, st, pages, log, published)
  {
    hide WindowFits, FollowOn, Frames, Deduplicated, AsFrames;
    FlushWithoutLoss(sub, w, log, published - |sub.pending|, published);
    WindowWithinLog(w, st, pages, log);
    FlushedFrames(log, w.cursor, published);
    assert Subscribed(sub, w).sent[1..] == AsFrames(log[Min(w.cursor, published)..published]);
  }

  lemma FlushedFrames(log: seq<ChatMessage>, cursor: nat, published: nat)
    requires IsLog(log) && cursor <= |log| && published <= |log|
    ensures BringsUpToDate(cursor, AsFrames(log[Min(cursor, published)..published]), log, published)
  {
    hide FollowOn;
    FollowOnSlice(log, Min(cursor, published), published);
    if published < cursor { FollowOnNothing(cursor, log); }
  }

  lemma WindowWithinLog(w: Window, st: ChatState, pages: seq<PageRequest>, log: seq<ChatMessage>)
    requires WindowFits(w, st, pages, log)
    ensures w.cursor <= |log|
  {
  }

  lemma FollowOnNothing(cursor: nat, log: seq<ChatMessage>)
    ensures FollowOn(cursor, [], log)
  {
  }

  /** The held stretch changed from `st` to `next`: requests under way still fit. */
  lemma PagesAfterFrame(pages: seq<PageRequest>, st: ChatState, next: ChatState, log: seq<ChatMessage>, floor: nat)
    requires PagesFit(pages, st, log) && Contiguous(st, log) && Contiguous(next, log) && st.messages != []
    requires st.cursor <= next.cursor && next.oldestRetainedId >= floor && (next.oldestRetainedId == 0 ==> st.oldestRetainedId == 0)
    requires floor <= Oldest(|log|)
    requires forall i :: 0 <= i < |pages| ==> First(st) <= pages[i].before || floor >= pages[i].before
    requires First(next) > First(st) ==> First(next) == next.oldestRetainedId && First(next) <= Oldest(|log|)
    ensures PagesFit(pages, next, log)
  {
    hide Contiguous, PageFits;
    StillHolds(st, next, log);
    forall i | 0 <= i < |pages| ensures PageFits(pages[i], next, log) {
      OnePageAfterFrame(pages[i], st, next, log, floor);
    }
  }

  lemma OnePageAfterFrame(r: PageRequest, st: ChatState, next: ChatState, log: seq<ChatMessage>, floor: nat)
    requires PageFits(r, st, log) && next.messages != [] && next.cursor <= |log|
    requires st.cursor <= next.cursor && next.oldestRetainedId >= floor && (next.oldestRetainedId == 0 ==> st.oldestRetainedId == 0)
    requires floor <= Oldest(|log|) && (First(st) <= r.before || floor >= r.before)
    requires First(next) > First(st) ==> First(next) == next.oldestRetainedId && First(next) <= Oldest(|log|)
    ensures PageFits(r, next, log)
  {
    hide PageIsLog, Oldest;
  }

  /** A store that held something keeps something as long as its cursor stays. */
  lemma StillHolds(st: ChatState, next: ChatState, log: seq<ChatMessage>)
    requires Contiguous(st, log) && Contiguous(next, log) && st.messages != [] && st.cursor <= next.cursor
    ensures next.messages != [] && First(next) >= 1 && next.cursor <= |log|
  {
  }

  lemma PageNeedsMessages(pages: seq<PageRequest>, st: ChatState, log: seq<ChatMessage>)
    requires PagesFit(pages, st, log) && pages != []
    ensures st.messages != []
  {
    assert PageFits(pages[0], st, log);
  }

  lemma PagesAfterMessage(pages: seq<PageRequest>, st: ChatState, next: ChatState, log: seq<ChatMessage>)
    requires PagesFit(pages, st, log) && Contiguous(st, log) && Contiguous(next, log)
    requires next.cursor == st.cursor + 1
    requires || (First(next) == First(st) && next.oldestRetainedId == st.oldestRetainedId)
             || First(next) == next.oldestRetainedId == next.cursor - CHAT_CLIENT_CAP + 1
    ensures PagesFit(pages, next, log)
  {
    hide Contiguous, PageFits;
    if pages != [] {
      PageNeedsMessages(pages, st, log);
      StillHolds(st, next, log);
    }
    forall i | 0 <= i < |pages| ensures PageFits(pages[i], next, log) {
      OnePageAfterMessage(pages[i], st, next, log);
    }
  }

  lemma OnePageAfterMessage(r: PageRequest, st: ChatState, next: ChatState, log: seq<ChatMessage>)
    requires PageFits(r, st, log) && next.messages != [] && First(next) >= 1 && next.cursor == st.cursor + 1 <= |log|
    requires || (First(next) == First(st) && next.oldestRetainedId == st.oldestRetainedId)
             || First(next) == next.oldestRetainedId == next.cursor - CHAT_CLIENT_CAP + 1
    ensures PageFits(r, next, log)
  {
    hide PageIsLog;
  }

  lemma StaleMessage(st: ChatState, m: ChatMessage)
    requires m.id <= st.cursor
    ensures WithMessage(st, m) == st
  {
  }

  lemma ReceiveHistoryKeepsInv(s: System, t: System)
    requires Inv(s) && Enabled(s, Receive) && s.link.received == 0
    requires t == Next(s, Receive)
    ensures Inv(t)
    ensures SurvivorsKeepIndex(s.client.state, t.client.state)
  {
    hide WithMessage, WithHistory, FollowOn, SurvivorsKeepIndex, Contiguous, Extends, PageFits, BringsUpToDate;
    var w, st, next := s.link.sub.sent[0].window, s.client.state, t.client.state;
    assert next == WithHistory(st, w);
    HistoryKeepsContiguous(st, s.log, w, next);
    SettledByHistory(next, s.log);
    if s.pages != [] {
      PageNeedsMessages(s.pages, st, s.log);
      HistoryMovesOn(w, st, next, s.log);
      PagesAfterFrame(s.pages, st, next, s.log, w.oldestRetainedId);
    }
  }

  lemma HistoryMovesOn(w: Window, st: ChatState, next: ChatState, log: seq<ChatMessage>)
    requires Contiguous(st, log) && st.messages != [] && Extends(w, st, log) && w.oldestRetainedId <= Oldest(|log|)
    requires next.cursor == w.cursor && next.oldestRetainedId >= w.oldestRetainedId
    requires First(next) > First(st)
             ==> next.oldestRetainedId == First(next) && (First(next) <= w.oldestRetainedId || First(next) == w.cursor - CHAT_CLIENT_CAP + 1)
    ensures st.cursor <= next.cursor && next.oldestRetainedId > 0
    ensures First(next) > First(st) ==> First(next) == next.oldestRetainedId && First(next) <= Oldest(|log|)
  {
  }

  lemma SettledByHistory(next: ChatState, log: seq<ChatMessage>)
    requires Contiguous(next, log) && (next.cursor == 0 ==> !next.hasOlder && next.oldestRetainedId == 0)
    ensures Settled(next)
  {
  }

  /** What a received live frame leaves: the next frames still follow on. */
  lemma ReceivedFrame(s: System, t: System, frames: seq<ServerFrame>)
    requires Inv(s) && Enabled(s, Receive) && s.link.received > 0 && t == Next(s, Receive)
    requires frames == s.link.sub.sent[s.link.received..]
    ensures frames != [] && frames[0].Message? && t.client.state == WithMessage(s.client.state, frames[0].message)
    ensures t.client.cursor == frames[0].message.id && t.pages == s.pages && t.log == s.log && t.unpublished == s.unpublished
    ensures t.readCursor == s.readCursor
    ensures 1 <= frames[0].message.id <= |s.log| && frames[0].message == s.log[frames[0].message.id - 1]
    ensures s.client.state.cursor <= frames[0].message.id <= s.client.state.cursor + 1
    ensures Settled(s.client.state)
    ensures BringsUpToDate(frames[0].message.id, t.link.sub.sent[t.link.received..], s.log, PublishedCount(s))
    ensures t.link.Up? && t.link.stage.Live? && t.link.received > 0
            && t.link.sub.active && t.link.sub.subscribed && t.link.received <= |t.link.sub.sent|
  {
    hide WithMessage, FollowOn, Contiguous, PagesFit;
    FollowOnTail(s.client.cursor, frames, s.log);
    assert frames[1..] == s.link.sub.sent[s.link.received + 1..];
  }

  lemma ReceiveMessageKeepsInv(s: System, t: System)
    requires Inv(s) && Enabled(s, Receive) && s.link.received > 0
    requires t == Next(s, Receive)
    ensures Inv(t)
    ensures SurvivorsKeepIndex(s.client.state, t.client.state)
  {
    hide Next, WithMessage, FollowOn, SurvivorsKeepIndex, Contiguous, PagesFit, BringsUpToDate;
    var frames, st := s.link.sub.sent[s.link.received..], s.client.state;
    ReceivedFrame(s, t, frames);
    if frames[0].message.id > st.cursor {
      MessageKeepsContiguous(st, s.log, t.client.state);
      PagesAfterMessage(s.pages, st, t.client.state, s.log);
    } else {
      StaleMessage(st, frames[0].message);
      SameStateSurvives(st, s.log);
    }
  }

  lemma SameStateSurvives(st: ChatState, log: seq<ChatMessage>)
    requires IsLog(log) && Contiguous(st, log)
    ensures SurvivorsKeepIndex(st, st)
  {
    hide SurvivorsKeepIndex;
    SurvivorsOfSlices(st, st, log, First(st) - 1, st.cursor, First(st) - 1, st.cursor);
  }

  lemma TakeOlderKeepsInv(s: System, i: nat, t: System)
    requires Inv(s) && Enabled(s, TakeOlder(i))
    requires t == Next(s, TakeOlder(i))
    ensures Inv(t)
    ensures SurvivorsKeepIndex(s.client.state, t.client.state)
  {
    hide WithOlderPage, SurvivorsKeepIndex, LinkFits, PagesFit, PageFits, Contiguous, IsLog, RemovedAt;
    var r, st, next := s.pages[i], s.client.state, t.client.state;
    PageUnderWay(s.pages, i, st, s.log);
    TakenPage(r, st, s.log, next);
    PagesAfterPage(s.pages, i, st, next, s.log);
    LinkAfterPage(s.link, st, next, s.pages, i, s.log, PublishedCount(s));
  }

  lemma TakenPage(r: PageRequest, st: ChatState, log: seq<ChatMessage>, next: ChatState)
    requires IsLog(log) && Contiguous(st, log) && PageFits(r, st, log) && r.Answered? && next == WithOlderPage(st, r.page)
    ensures st.messages != []
    ensures Contiguous(next, log) && next.cursor == st.cursor && First(next) <= First(st)
    ensures next.oldestRetainedId >= st.oldestRetainedId && (st.oldestRetainedId == 0 ==> next.oldestRetainedId == 0)
    ensures SurvivorsKeepIndex(st, next)
  {
    hide WithOlderPage, SurvivorsKeepIndex, Contiguous, IsLog;
    PageKeepsContiguous(st, log, r.before - 1 - |r.page|, r.before, next);
  }

  lemma PageUnderWay(pages: seq<PageRequest>, i: nat, st: ChatState, log: seq<ChatMessage>)
    requires PagesFit(pages, st, log) && i < |pages|
    ensures PageFits(pages[i], st, log)
  {
  }

  lemma PagesAfterPage(pages: seq<PageRequest>, i: nat, st: ChatState, next: ChatState, log: seq<ChatMessage>)
    requires PagesFit(pages, st, log) && i < |pages|
    requires Contiguous(st, log) && Contiguous(next, log) && next.cursor == st.cursor && First(next) <= First(st)
    requires next.oldestRetainedId >= st.oldestRetainedId && (st.oldestRetainedId == 0 ==> next.oldestRetainedId == 0)
    ensures PagesFit(RemovedAt(pages, i), next, log)
  {
    hide Contiguous, PageFits;
    var rest := RemovedAt(pages, i);
    forall j | 0 <= j < |rest| ensures PageFits(rest[j], next, log) {
      OnePageAfterPage(pages[if j < i then j else j + 1], st, next, log);
    }
  }

  lemma OnePageAfterPage(r: PageRequest, st: ChatState, next: ChatState, log: seq<ChatMessage>)
    requires PageFits(r, st, log) && Contiguous(st, log) && Contiguous(next, log)
    requires next.cursor == st.cursor && First(next) <= First(st)
    requires next.oldestRetainedId >= st.oldestRetainedId && (st.oldestRetainedId == 0 ==> next.oldestRetainedId == 0)
    ensures PageFits(r, next, log)
  {
    hide Contiguous, PageIsLog;
  }

  /** A page only moves the front of the stretch back. */
  lemma LinkAfterPage(link: Link, st: ChatState, next: ChatState, pages: seq<PageRequest>, i: nat, log: seq<ChatMessage>, published: int)
    requires LinkFits(link, st, pages, log, published) && i < |pages|
    requires Contiguous(st, log) && Contiguous(next, log) && st.messages != []
    requires next.cursor == st.cursor && First(next) <= First(st)
    ensures LinkFits(link, next, RemovedAt(pages, i), log, published)
  {
    hide FollowOn, Buffered, BringsUpToDate;
  }

  lemma AskOlderKeepsInv(s: System)
    requires Inv(s) && Enabled(s, AskOlder)
    ensures Inv(Next(s, AskOlder))
  {
    hide LinkFits, PageFits, Contiguous;
    var st := s.client.state;
    AskedFits(st, s.log);
    LinkWithPage(s.link, st, s.pages, s.log, PublishedCount(s), Asked(st.messages[0].id));
  }

  lemma AskedFits(st: ChatState, log: seq<ChatMessage>)
    requires Contiguous(st, log) && IsLog(log) && st.messages != []
    ensures PageFits(Asked(st.messages[0].id), st, log) && First(st) <= st.messages[0].id
  {
  }

  lemma LinkWithPage(link: Link, st: ChatState, pages: seq<PageRequest>, log: seq<ChatMessage>, published: int, r: PageRequest)
    requires LinkFits(link, st, pages, log, published) && First(st) <= r.before
    ensures LinkFits(link, st, pages + [r], log, published)
  {
    hide FollowOn, Extends, BringsUpToDate, Buffered;
  }

  lemma OlderPageFits(log: seq<ChatMessage>, r: PageRequest, st: ChatState)
    requires PageFits(r, st, log)
    ensures PageFits(Answered(r.before, OlderPage(log, r.before)), st, log)
  {
    hide OlderPage, PageIsLog;
    OlderPageIsLog(log, r.before);
  }

  lemma OlderPageIsLog(log: seq<ChatMessage>, before: nat)
    requires 1 <= before <= |log| + 1
    ensures PageIsLog(Answered(before, OlderPage(log, before)), log)
  {
  }

  lemma AnswerOlderKeepsInv(s: System, i: nat)
    requires Inv(s) && Enabled(s, AnswerOlder(i))
    ensures Inv(Next(s, AnswerOlder(i)))
  {
    hide FollowOn, OlderPage, Contiguous, Extends, PageFits;
    var t := Next(s, AnswerOlder(i));
    OlderPageFits(s.log, s.pages[i], s.client.state);
  }

  lemma OtherStepsKeepInv(s: System, step: Step)
    requires Inv(s) && Enabled(s, step)
    requires step.Connect? || step.SubscribeFrame? || step.Drop? || step.FailOlder?
    ensures Inv(Next(s, step))
  {
    hide Contiguous, PagesFit, BringsUpToDate, WindowFits, Buffered, IsLog, RemovedAt, Subscribing;
    match step
    case Connect => ConnectedBuffers(s.log, PublishedCount(s)); PublishedIsLogged(s);
    case SubscribeFrame => SubscribingBuffers(s.link.sub, s.log, PublishedCount(s));
    case FailOlder(i) =>
      OtherPagesFit(s.pages, i, s.client.state, s.log);
      LinkWithoutPage(s.link, s.client.state, s.pages, i, s.log, PublishedCount(s));
    case _ =>
  }

  lemma PublishedIsLogged(s: System)
    requires StoreFits(s)
    ensures 0 <= PublishedCount(s) <= |s.log|
  {
    hide Contiguous, IsLog;
  }

  lemma ConnectedBuffers(log: seq<ChatMessage>, published: int)
    ensures 0 <= published <= |log| ==> Buffered(CONNECTED, log, published)
  {
  }

  lemma SubscribingBuffers(sub: Sub, log: seq<ChatMessage>, published: int)
    requires Buffered(sub, log, published)
    ensures Buffered(Subscribing(sub), log, published)
  {
  }

  lemma OtherPagesFit(pages: seq<PageRequest>, i: nat, st: ChatState, log: seq<ChatMessage>)
    requires PagesFit(pages, st, log) && i < |pages|
    ensures PagesFit(RemovedAt(pages, i), st, log)
  {
    hide PageFits;
    var rest := RemovedAt(pages, i);
    forall j | 0 <= j < |rest| ensures PageFits(rest[j], st, log) {
      assert PageFits(pages[if j < i then j else j + 1], st, log);
    }
  }

  lemma LinkWithoutPage(link: Link, st: ChatState, pages: seq<PageRequest>, i: nat, log: seq<ChatMessage>, published: int)
    requires LinkFits(link, st, pages, log, published) && i < |pages|
    ensures LinkFits(link, st, RemovedAt(pages, i), log, published)
  {
    hide FollowOn, Extends, BringsUpToDate, Buffered, Contiguous;
  }

  lemma StepKeepsInv(s: System, step: Step, t: System)
    requires Inv(s) && Enabled(s, step) && t == Next(s, step)
    ensures Inv(t)
    ensures SurvivorsKeepIndex(s.client.state, t.client.state)
  {
    hide Inv, Next, SurvivorsKeepIndex;
    match step
    case Receive =>
      if s.link.received == 0 { ReceiveHistoryKeepsInv(s, t); } else { ReceiveMessageKeepsInv(s, t); }
    case TakeOlder(i) => TakeOlderKeepsInv(s, i, t);
    case Commit(_, _, _, _) => CommitKeepsInv(s, step); SameStore(s, step);
    case Publish => PublishKeepsInv(s); SameStore(s, step);
    case ReadWindow => ReadWindowKeepsInv(s); SameStore(s, step);
    case SendHistory => SendHistoryKeepsInv(s); SameStore(s, step);
    case AskOlder => AskOlderKeepsInv(s); SameStore(s, step);
    case AnswerOlder(i) => AnswerOlderKeepsInv(s, i); SameStore(s, step);
    case _ => OtherStepsKeepInv(s, step); SameStore(s, step);
  }

  /** The steps that hand the client nothing leave its store as it is. */
  lemma SameStore(s: System, step: Step)
    requires Inv(s) && Enabled(s, step) && !step.Receive? && !step.TakeOlder?
    ensures SurvivorsKeepIndex(s.client.state, Next(s, step).client.state)
  {
    hide SurvivorsKeepIndex, LinkFits, PagesFit;
    SameClient(s, step);
    SameStateSurvives(s.client.state, s.log);
  }

  lemma SameClient(s: System, step: Step)
    requires Enabled(s, step) && !step.Receive? && !step.TakeOlder?
    ensures Next(s, step).client == s.client
  {
    hide Published, Subscribing, Subscribed, SubscriptionWindow, OlderPage, Received, WithOlderPage, RemovedAt;
  }

  lemma {:induction false} RunKeepsInv(s: System, steps: seq<Step>, t: System)
    requires Inv(s) && Run(s, steps, t)
    ensures Inv(t)
    decreases |steps|
  {
    hide Inv, Next;
    if steps != [] {
      StepKeepsInv(s, steps[0], Next(s, steps[0]));
      RunKeepsInv(Next(s, steps[0]), steps[1..], t);
    }
  }

  lemma InitialInv(s: System)
    requires IsLog(s.log) && Initial(s)
    ensures Inv(s)
  {
  }

  /** Main result. Under every interleaving of posts, publishes, window reads,
      sends, receipts, page loads, drops and reconnects, the client holds a
      contiguous stretch of the log that ends at its cursor: strictly increasing,
      no duplicate, no hole, each message exactly as it was committed. */
  lemma ClientHoldsContiguousStretch(s: System, steps: seq<Step>, t: System)
    requires IsLog(s.log) && Initial(s) && Run(s, steps, t)
    ensures t.client.cursor == t.client.state.cursor <= |t.log|
    ensures var st := t.client.state;
            && |st.messages| <= st.cursor
            && st.messages == t.log[st.cursor - |st.messages|..st.cursor]
            && (forall i :: 0 <= i < |st.messages| ==> st.messages[i].id == st.cursor - |st.messages| + 1 + i)
            && (st.messages != [] ==> (st.hasOlder <==> st.messages[0].id > Max(1, st.oldestRetainedId)))
  {
    hide Run, Next, LinkFits, PagesFit, Contiguous, Initial;
    InitialInv(s);
    RunKeepsInv(s, steps, t);
    ContiguousMeans(t.client.state, t.log);
  }

  lemma ContiguousMeans(st: ChatState, log: seq<ChatMessage>)
    requires IsLog(log) && Contiguous(st, log)
    ensures st.cursor <= |log| && |st.messages| <= st.cursor
    ensures st.messages == log[st.cursor - |st.messages|..st.cursor]
    ensures forall i :: 0 <= i < |st.messages| ==> st.messages[i].id == st.cursor - |st.messages| + 1 + i
    ensures st.messages != [] ==> (st.hasOlder <==> st.messages[0].id > Max(1, st.oldestRetainedId))
  {
  }

  /** Main result. Whatever happens next, every message the client still holds
      stays at the same logical index of the list. */
  lemma SurvivorsStayInPlace(s: System, steps: seq<Step>, t: System, step: Step)
    requires IsLog(s.log) && Initial(s) && Run(s, steps, t) && Enabled(t, step)
    ensures SurvivorsKeepIndex(t.client.state, Next(t, step).client.state)
  {
    hide Inv, Next, SurvivorsKeepIndex;
    InitialInv(s);
    RunKeepsInv(s, steps, t);
    StepKeepsInv(t, step, Next(t, step));
  }

  /** Main result. Nothing is lost on the way: a live client that has received
      every frame sent to it, with no post waiting to be published, is at the end
      of the log. */
  lemma QuietClientIsUpToDate(s: System, steps: seq<Step>, t: System)
    requires IsLog(s.log) && Initial(s) && Run(s, steps, t)
    requires t.link.Up? && t.link.stage.Live? && t.link.received == |t.link.sub.sent| && !t.unpublished
    ensures t.client.state.cursor == |t.log|
    ensures t.log != [] ==> t.client.state.messages != [] && t.client.state.messages[|t.client.state.messages| - 1] == t.log[|t.log| - 1]
  {
    InitialInv(s);
    RunKeepsInv(s, steps, t);
    assert t.link.sub.sent[t.link.received..] == [];
  }

  /** The cursor of one client never goes back. */
  lemma CursorNeverGoesBack(s: System, step: Step)
    requires Inv(s) && Enabled(s, step)
    ensures Next(s, step).client.cursor >= s.client.cursor
  {
    hide Inv, Next;
    if step.Receive? {
      ReceiveMovesOn(s, Next(s, step));
    } else if step.TakeOlder? {
      TakeOlderKeepsCursor(s, step.i);
    } else {
      SameClient(s, step);
    }
  }

  lemma TakeOlderKeepsCursor(s: System, i: nat)
    requires Enabled(s, TakeOlder(i))
    ensures Next(s, TakeOlder(i)).client.cursor == s.client.cursor
  {
    hide WithOlderPage;
  }

  lemma ReceiveMovesOn(s: System, t: System)
    requires Inv(s) && Enabled(s, Receive) && t == Next(s, Receive)
    ensures t.client.cursor >= s.client.cursor
  {
    hide PagesFit, BringsUpToDate, Contiguous, NextState, WithMessage, WithHistory;
    if s.link.received > 0 {
      ReceivedFrame(s, t, s.link.sub.sent[s.link.received..]);
    }
  }

  // ---- Asking for older messages ----

  /** A request for older messages, answered and taken with nothing in between. */
  function AskedForOlder(s: System): System
    requires s.client.state.messages != []
  {
    var i := |s.pages|;
    Next(Next(Next(s, AskOlder), AnswerOlder(i)), TakeOlder(i))
  }

  lemma AskedForOlderIs(s: System)
    requires Inv(s) && s.client.state.messages != []
    ensures s.client.state.messages[0].id == First(s.client.state)
    ensures AskedForOlder(s) == s.(client := s.client.(state := WithOlderPage(s.client.state, OlderPage(s.log, First(s.client.state)))))
  {
    hide WithOlderPage, OlderPage, PagesFit, LinkFits;
    assert (s.pages + [Asked(First(s.client.state))])[..|s.pages|] == s.pages;
  }

  /** Main result. As long as the table retains anything older than what the client
      holds, asking brings the next page of it, to the floor the client knows and no
      further; once retention has taken all of that, asking changes nothing. */
  lemma OlderMessagesArrive(s: System, t: System)
    requires Inv(s) && s.client.state.messages != [] && s.client.state.hasOlder
    requires t == AskedForOlder(s)
    ensures var st, next := s.client.state, t.client.state;
            if Oldest(|s.log|) < First(st)
            then First(next) == Max(Max(st.oldestRetainedId, Oldest(|s.log|)), First(st) - CHAT_PAGE_SIZE) < First(st)
            else next.messages == st.messages && next.hasOlder
    ensures Inv(t) && t.client.state.cursor == s.client.state.cursor
    ensures t == s.(client := s.client.(state := t.client.state))
  {
    hide WithOlderPage, OlderPage, PagesFit, LinkFits, Contiguous, IsLog, Next, AskedForOlder;
    var st := s.client.state;
    AskedForOlderIs(s);
    AskedForOlderKeepsInv(s);
    TakenAtOnce(st, s.log, WithOlderPage(st, OlderPage(s.log, First(st))));
  }

  lemma AskedForOlderKeepsInv(s: System)
    requires Inv(s) && s.client.state.messages != []
    ensures Inv(AskedForOlder(s))
  {
    hide Inv, WithOlderPage, OlderPage;
    var i, asked := |s.pages|, Next(s, AskOlder);
    var answered := Next(asked, AnswerOlder(i));
    StepKeepsInv(s, AskOlder, asked);
    StepKeepsInv(asked, AnswerOlder(i), answered);
    StepKeepsInv(answered, TakeOlder(i), Next(answered, TakeOlder(i)));
  }

  lemma TakenAtOnce(st: ChatState, log: seq<ChatMessage>, next: ChatState)
    requires IsLog(log) && Contiguous(st, log) && st.messages != [] && st.hasOlder
    requires next == WithOlderPage(st, OlderPage(log, First(st)))
    ensures next.cursor == st.cursor
    ensures if Oldest(|log|) < First(st)
            then First(next) == Max(Max(st.oldestRetainedId, Oldest(|log|)), First(st) - CHAT_PAGE_SIZE) < First(st)
            else next.messages == st.messages && next.hasOlder
  {
    hide WithOlderPage, Contiguous, IsLog, OlderPage, SurvivorsKeepIndex;
    HeldStretch(st, log);
    var before, page := First(st), OlderPage(log, First(st));
    ContiguousMeans(st, log);
    if Oldest(|log|) < before {
      OlderPageReaches(log, before);
      PageKeepsContiguous(st, log, before - 1 - |page|, before, next);
    } else {
      NothingBelow(log, before);
      PageKeepsContiguous(st, log, before - 1, before, next);
      ContiguousMeans(next, log);
    }
  }

  lemma NothingBelow(log: seq<ChatMessage>, before: nat)
    requires 1 <= before <= Oldest(|log|) && before <= |log| + 1
    ensures OlderPage(log, before) == log[before - 1..before - 1]
  {
    assert before - 1 <= Max(0, |log| - CHAT_RETENTION);
    assert OlderPage(log, before) == [];
  }

  /** Asking in vain happens: a client that knows of an older message does not learn
      that the next post has pushed it out of the table. */
  lemma AskingInVain(s: System) returns (t: System)
    requires IsLog(s.log) && Initial(s) && |s.log| == CHAT_RETENTION && s.readCursor == Some(CHAT_PAGE_SIZE + 1)
    ensures Run(s, [Connect, SubscribeFrame, ReadWindow, SendHistory, Receive, Commit(0, [], ChatContent([], []), 0)], t)
    ensures t.client.state.messages != [] && t.client.state.hasOlder
    ensures AskedForOlder(t).client.state.messages == t.client.state.messages && AskedForOlder(t).client.state.hasOlder
  {
    hide WithHistory, AskedForOlder, Inv, Contiguous, IsLog, SubscriptionWindow;
    InitialInv(s);
    FirstWindow(s.log);
    var ready := Next(Next(Next(s, Connect), SubscribeFrame), ReadWindow);
    t := Next(Next(Next(ready, SendHistory), Receive), Commit(0, [], ChatContent([], []), 0));
    RunKeepsInv(s, [Connect, SubscribeFrame, ReadWindow, SendHistory, Receive, Commit(0, [], ChatContent([], []), 0)], t);
    OlderMessagesArrive(t, AskedForOlder(t));
  }

  lemma FirstWindow(log: seq<ChatMessage>)
    requires IsLog(log) && |log| == CHAT_RETENTION
    ensures var st := WithHistory(INITIAL, SubscriptionWindow(log, 0, Some(CHAT_PAGE_SIZE + 1)));
            st.messages != [] && First(st) == 2 && st.hasOlder && st.cursor == |log|
  {
    hide WithHistory, SubscriptionWindow, Contiguous, Extends, IsLog, SurvivorsKeepIndex;
    var w := SubscriptionWindow(log, 0, Some(CHAT_PAGE_SIZE + 1));
    var next := WithHistory(INITIAL, w);
    NothingHeld(log);
    WindowReadExtends(INITIAL, log, Some(CHAT_PAGE_SIZE + 1));
    FirstWindowSize(log);
    HistoryKeepsContiguous(INITIAL, log, w, next);
    ContiguousMeans(next, log);
  }

  lemma NothingHeld(log: seq<ChatMessage>)
    ensures Contiguous(INITIAL, log)
  {
  }

  lemma FirstWindowSize(log: seq<ChatMessage>)
    requires |log| == CHAT_RETENTION
    ensures var w := SubscriptionWindow(log, 0, Some(CHAT_PAGE_SIZE + 1));
            |w.messages| == |log| - 1 && w.oldestRetainedId == 1
  {
  }
}
