/** Fan-out of global chat to its sockets (apps/server/src/live/global-chat-hub.ts). */
module GlobalChatHub {
  import opened Bounds
  import opened ChatTypes
  import opened Slices

  /** What one subscriber has been through: its flags, the messages buffered while
      its history query is in flight, and every frame sent on its socket. */
  datatype Sub = Sub(active: bool, subscribing: bool, subscribed: bool, pending: seq<ChatMessage>, sent: seq<ServerFrame>)

  const CONNECTED: Sub := Sub(true, false, false, [], [])

  function Sent(s: Sub, frame: ServerFrame): Sub {
    if s.active then s.(sent := s.sent + [frame]) else s
  }

  function Published(s: Sub, message: ChatMessage): Sub {
    if s.subscribed then Sent(s, Message(message)) else s.(pending := s.pending + [message])
  }

  /** A subscribe frame arrives; the history query starts. */
  function Subscribing(s: Sub): Sub {
    if !s.active || s.subscribing || s.subscribed then s else s.(subscribing := true)
  }

  /** One message per id: the later copy, at the place of the first. */
  function Deduplicated(ms: seq<ChatMessage>): (r: seq<ChatMessage>) {
    if ms == [] then []
    else
      var rest := Deduplicated(ms[..|ms| - 1]);
      var m := ms[|ms| - 1];
      var at := PlaceOf(rest, m.id);
      if at < |rest| then rest[at := m] else rest + [m]
  }

  /** Index of the first message with this id, or the length when there is none. */
  function PlaceOf(ms: seq<ChatMessage>, id: nat): (at: nat)
    ensures at <= |ms| && (at < |ms| ==> ms[at].id == id) && forall i :: 0 <= i < at ==> ms[i].id != id
  {
    if ms == [] then 0 else if ms[0].id == id then 0 else 1 + PlaceOf(ms[1..], id)
  }

  function Frames(ms: seq<ChatMessage>, after: nat): (frames: seq<ServerFrame>) {
    if ms == [] then []
    else (if ms[0].id > after then [Message(ms[0])] else []) + Frames(ms[1..], after)
  }

  /** The history query comes back: the history frame, then everything buffered
      meanwhile that the window does not already cover. */
  function Subscribed(s: Sub, window: Window): Sub {
    if !s.active then s.(subscribing := false)
    else Sub(true, false, true, [], s.sent + [History(window)] + Frames(Deduplicated(s.pending), window.cursor))
  }

  lemma NoFrames(after: nat)
    ensures Frames([], after) == []
  {
  }

  lemma FramesSnoc(ms: seq<ChatMessage>, i: nat, after: nat)
    requires i < |ms|
    ensures Frames(ms[..i + 1], after) == Frames(ms[..i], after) + if ms[i].id > after then [Message(ms[i])] else []
  {
    FramesOfSum(ms[..i], ms[i], after);
    assert ms[..i + 1] == ms[..i] + [ms[i]];
  }

  lemma {:induction false} FramesOfSum(ms: seq<ChatMessage>, m: ChatMessage, after: nat)
    ensures Frames(ms + [m], after) == Frames(ms, after) + if m.id > after then [Message(m)] else []
    decreases |ms|
  {
    if ms == [] {
      assert ms + [m] == [m];
    } else {
      assert (ms + [m])[1..] == ms[1..] + [m];
      FramesOfSum(ms[1..], m, after);
    }
  }

  class Subscriber {
    var active: bool
    var subscribing: bool
    var subscribed: bool
    var pending: seq<ChatMessage>
    var sent: seq<ServerFrame>

    constructor ()
      ensures View() == CONNECTED
    {
      active, subscribing, subscribed, pending, sent := true, false, false, [], [];
    }

    ghost function View(): Sub
      reads this
    {
      Sub(active, subscribing, subscribed, pending, sent)
    }

    method Send(frame: ServerFrame)
      modifies this
      ensures View() == Sent(old(View()), frame)
    {
      if active { sent := sent + [frame]; }
    }
  }

  class Hub {
    var subscribers: seq<Subscriber>

    ghost predicate Valid()
      reads this
    {
      forall i, j :: 0 <= i < j < |subscribers| ==> subscribers[i] != subscribers[j]
    }

    constructor ()
      ensures Valid() && subscribers == []
    {
      subscribers := [];
    }

    method Connect() returns (s: Subscriber)
      requires Valid()
      modifies this
      ensures Valid() && fresh(s) && s.View() == CONNECTED
      ensures subscribers == old(subscribers) + [s]
    {
      s := new Subscriber();
      subscribers := subscribers + [s];
    }

    method Close(s: Subscriber)
      requires Valid()
      modifies this, s
      ensures Valid() && s !in subscribers
      ensures s.View() == old(s.View()).(active := false)
      ensures forall t :: t in old(subscribers) && t != s ==> t in subscribers
    {
      s.active := false;
      var kept, i := [], 0;
      while i < |subscribers|
        invariant 0 <= i <= |subscribers| && subscribers == old(subscribers)
        invariant s.View() == old(s.View()).(active := false)
        invariant forall t :: t in kept <==> t in subscribers[..i] && t != s
        invariant forall m, n :: 0 <= m < n < |kept| ==> kept[m] != kept[n]
      {
        assert subscribers[i] !in subscribers[..i];
        if subscribers[i] != s { kept := kept + [subscribers[i]]; }
        i := i + 1;
      }
      subscribers := kept;
    }

    method SubscribeFrame(s: Subscriber)
      modifies s
      ensures s.View() == Subscribing(old(s.View()))
    {
      if !s.active || s.subscribing || s.subscribed { return; }
      s.subscribing := true;
    }

    /** The Map that keeps one copy of each buffered message. */
    method Unique(ms: seq<ChatMessage>) returns (unique: seq<ChatMessage>)
      ensures unique == Deduplicated(ms)
    {
      unique := [];
      var i := 0;
      while i < |ms|
        invariant 0 <= i <= |ms| && unique == Deduplicated(ms[..i])
      {
        assert ms[..i + 1][..i] == ms[..i];
        var at := PlaceOf(unique, ms[i].id);
        unique := if at < |unique| then unique[at := ms[i]] else unique + [ms[i]];
        i := i + 1;
      }
      assert ms[..i] == ms;
    }

    method Flush(s: Subscriber, ms: seq<ChatMessage>, after: nat)
      requires s.active
      modifies s
      ensures s.View() == old(s.View()).(sent := old(s.sent) + Frames(ms, after))
    {
      hide Frames;
      var i := 0;
      NoFrames(after);
      while i < |ms|
        invariant 0 <= i <= |ms|
        invariant s.View() == old(s.View()).(sent := old(s.sent) + Frames(ms[..i], after))
      {
        FramesSnoc(ms, i, after);
        if ms[i].id > after { s.Send(Message(ms[i])); }
        i := i + 1;
      }
      assert ms[..i] == ms;
    }

    /** The rest of `subscribe`, once the window has been read. */
    method WindowRead(s: Subscriber, window: Window)
      modifies s
      ensures s.View() == Subscribed(old(s.View()), window)
    {
      if !s.active {
        s.subscribing := false;
        return;
      }
      s.subscribed := true;
      s.Send(History(window));
      var pending := Unique(s.pending);
      s.pending := [];
      Flush(s, pending, window.cursor);
      s.subscribing := false;
    }

    method Publish(message: ChatMessage)
      requires Valid()
      modifies subscribers
      ensures forall s :: s in subscribers ==> s.View() == Published(old(s.View()), message)
    {
      var i := 0;
      while i < |subscribers|
        invariant 0 <= i <= |subscribers| && subscribers == old(subscribers)
        invariant forall j :: 0 <= j < i ==> subscribers[j].View() == Published(old(subscribers[j].View()), message)
        invariant forall j :: i <= j < |subscribers| ==> subscribers[j].View() == old(subscribers[j].View())
      {
        var s := subscribers[i];
        if s.subscribed { s.Send(Message(message)); } else { s.pending := s.pending + [message]; }
        i := i + 1;
      }
    }
  }

  // ---- The buffer is flushed without loss ----

  lemma NotYetThere(log: seq<ChatMessage>, a: nat, b: nat)
    requires IsLog(log) && a <= b < |log|
    ensures PlaceOf(log[a..b], log[b].id) == |log[a..b]|
  {
    forall i | 0 <= i < b - a ensures log[a..b][i].id != log[b].id {
      assert log[a..b][i] == log[a + i];
    }
  }

  lemma {:induction false} DeduplicatedSlice(log: seq<ChatMessage>, a: nat, b: nat)
    requires IsLog(log) && a <= b <= |log|
    ensures Deduplicated(log[a..b]) == log[a..b]
    decreases b
  {
    hide PlaceOf, Deduplicated;
    if a < b {
      LastOfSlice(log, a, b);
      DeduplicatedSlice(log, a, b - 1);
      NotYetThere(log, a, b - 1);
      DeduplicatedSnoc(log[a..b - 1], log[b - 1]);
    } else {
      NothingToDeduplicate();
    }
  }

  lemma NothingToDeduplicate()
    ensures Deduplicated([]) == []
  {
  }

  lemma LastOfSlice(log: seq<ChatMessage>, a: nat, b: nat)
    requires a < b <= |log|
    ensures log[a..b] == log[a..b - 1] + [log[b - 1]]
  {
  }

  /** A message under a new id is kept, behind the others. */
  lemma DeduplicatedSnoc(ms: seq<ChatMessage>, m: ChatMessage)
    requires Deduplicated(ms) == ms && PlaceOf(ms, m.id) == |ms|
    ensures Deduplicated(ms + [m]) == ms + [m]
  {
    hide PlaceOf;
    assert (ms + [m])[..|ms|] == ms;
  }

  function AsFrames(ms: seq<ChatMessage>): seq<ServerFrame> {
    seq(|ms|, i requires 0 <= i < |ms| => Message(ms[i]))
  }

  lemma {:induction false} FramesOfSlice(log: seq<ChatMessage>, a: nat, b: nat, after: nat)
    requires IsLog(log) && a <= b <= |log| && a <= after
    ensures Frames(log[a..b], after) == AsFrames(log[Min(after, b)..b])
    decreases b - a
  {
    if a < b {
      assert log[a..b][1..] == log[a + 1..b];
      if a < after {
        FramesOfSlice(log, a + 1, b, after);
      } else {
        FramesOfSlice(log, a + 1, b, a + 1);
        FramesAllNewer(log, a + 1, b, after);
        assert log[a..b] == [log[a]] + log[a + 1..b];
      }
    }
  }

  lemma {:induction false} FramesAllNewer(log: seq<ChatMessage>, a: nat, b: nat, after: nat)
    requires IsLog(log) && after <= a <= b <= |log|
    ensures Frames(log[a..b], after) == AsFrames(log[a..b])
    decreases b - a
  {
    if a < b {
      assert log[a..b][1..] == log[a + 1..b];
      FramesAllNewer(log, a + 1, b, after);
      assert log[a..b] == [log[a]] + log[a + 1..b];
    }
  }

  /** A subscriber that buffered `log[joined..published]` gets the window and then
      exactly the messages after it, in order. */
  lemma FlushWithoutLoss(s: Sub, window: Window, log: seq<ChatMessage>, joined: nat, published: nat)
    requires IsLog(log) && joined <= published <= |log| && joined <= window.cursor
    requires s.active && s.pending == log[joined..published]
    ensures Subscribed(s, window).sent
            == s.sent + [History(window)] + AsFrames(log[Min(window.cursor, published)..published])
  {
    DeduplicatedSlice(log, joined, published);
    FramesOfSlice(log, joined, published, window.cursor);
  }
}
