/** The retained chat table (packages/db/src/global-chat.ts). */
module GlobalChatRepository {
  import opened Wrappers
  import opened Bounds
  import opened ChatTypes
  import opened Slices

  const CHAT_RETENTION: nat := 1000

  // ---- Queries, as the SQL states them ----

  /** `where id > after`, in table order. */
  function Newer(rows: seq<ChatMessage>, after: int): (r: seq<ChatMessage>) {
    if rows == [] then []
    else if rows[0].id > after then [rows[0]] + Newer(rows[1..], after)
    else Newer(rows[1..], after)
  }

  /** `where id <= upTo`, in table order. */
  function UpTo(rows: seq<ChatMessage>, upTo: int): (r: seq<ChatMessage>) {
    if rows == [] then []
    else if rows[0].id <= upTo then [rows[0]] + UpTo(rows[1..], upTo)
    else UpTo(rows[1..], upTo)
  }

  /** `order by id desc limit n`, reversed: the `n` newest rows, oldest first. */
  function Newest(rows: seq<ChatMessage>, n: nat): (r: seq<ChatMessage>) {
    if |rows| <= n then rows else rows[|rows| - n..]
  }

  // ---- The same queries as stretches of the log ----

  /** The oldest id a log of length `n` still retains. */
  function Oldest(n: nat): nat {
    if n == 0 then 0 else Max(1, n - CHAT_RETENTION + 1)
  }

  function RetainedRows(log: seq<ChatMessage>): seq<ChatMessage> {
    log[Max(0, |log| - CHAT_RETENTION)..]
  }

  /** The log after its first `n` entries. */
  function Since(log: seq<ChatMessage>, n: nat): seq<ChatMessage>
    requires n <= |log|
  {
    log[n..|log|]
  }

  /** A subscription window always runs from after this id to the newest row. */
  function WindowStart(n: nat, deliveryCursor: nat, readCursor: Option<nat>): (start: nat)
    requires n > 0
    ensures Oldest(n) - 1 <= start <= n
  {
    var oldest := Oldest(n);
    if deliveryCursor > n || (readCursor.Some? && readCursor.value > n) then Max(oldest - 1, n - CHAT_PAGE_SIZE)
    else if deliveryCursor > 0 then (if deliveryCursor < oldest then oldest - 1 else deliveryCursor)
    else if readCursor.None? then Max(oldest - 1, n - CHAT_PAGE_SIZE)
    else if readCursor.value < oldest then oldest - 1
    else Max(oldest - 1, readCursor.value - CHAT_PAGE_SIZE)
  }

  function WindowTruncated(n: nat, deliveryCursor: nat, readCursor: Option<nat>): bool
    requires n > 0
  {
    var oldest := Oldest(n);
    if deliveryCursor > n || (readCursor.Some? && readCursor.value > n) then false
    else if deliveryCursor > 0 then deliveryCursor < oldest
    else if readCursor.None? then false
    else if readCursor.value == 0 then oldest > 1
    else readCursor.value < oldest
  }

  function SubscriptionWindow(log: seq<ChatMessage>, deliveryCursor: nat, readCursor: Option<nat>): (w: Window) {
    if log == [] then Window([], 0, 0, false, false)
    else
      var n := |log|;
      var start := WindowStart(n, deliveryCursor, readCursor);
      Window(Since(log, start), n, Oldest(n), start < n && start + 1 > Oldest(n), WindowTruncated(n, deliveryCursor, readCursor))
  }

  /** The page nearest below `before` that is still retained. */
  function OlderPage(log: seq<ChatMessage>, before: nat): (page: seq<ChatMessage>)
  {
    var end := Max(0, Min(before - 1, |log|));
    var floor := Max(0, |log| - CHAT_RETENTION);
    if end <= floor then [] else log[Max(floor, end - CHAT_PAGE_SIZE)..end]
  }

  lemma {:induction false} NewerOfSlice(log: seq<ChatMessage>, a: nat, b: nat, after: int)
    requires IsLog(log) && a <= b <= |log|
    ensures Newer(log[a..b], after) == log[Max(a, Min(after, b))..b]
    decreases b - a
  {
    if a < b {
      NewerCons(log, a, b, after);
      NewerOfSlice(log, a + 1, b, after);
      if after <= a {
        assert Max(a + 1, Min(after, b)) == a + 1 && Max(a, Min(after, b)) == a;
        FirstOfSlice(log, a, b);
      } else {
        assert Max(a + 1, Min(after, b)) == Max(a, Min(after, b));
      }
    }
  }

  lemma NewerCons(log: seq<ChatMessage>, a: nat, b: nat, after: int)
    requires IsLog(log) && a < b <= |log|
    ensures Newer(log[a..b], after) == (if after <= a then [log[a]] else []) + Newer(log[a + 1..b], after)
  {
    FirstOfSlice(log, a, b);
    assert log[a].id == a + 1;
  }

  lemma FirstOfSlice(log: seq<ChatMessage>, a: nat, b: nat)
    requires a < b <= |log|
    ensures log[a..b] == [log[a]] + log[a + 1..b] && log[a..b][0] == log[a] && log[a..b][1..] == log[a + 1..b]
  {
  }

  lemma {:induction false} UpToOfSlice(log: seq<ChatMessage>, a: nat, b: nat, upTo: int)
    requires IsLog(log) && a <= b <= |log|
    ensures UpTo(log[a..b], upTo) == log[a..Max(a, Min(upTo, b))]
    decreases b - a
  {
    if a < b {
      FirstOfSlice(log, a, b);
      UpToOfSlice(log, a + 1, b, upTo);
      if upTo > a { FirstOfSlice(log, a, Max(a, Min(upTo, b))); }
    }
  }

  lemma NewestOfSlice(log: seq<ChatMessage>, a: nat, b: nat, n: nat)
    requires a <= b <= |log|
    ensures Newest(log[a..b], n) == log[Max(a, b - n)..b]
  {
    if b - a > n { SliceOfSlice(log, a, b, b - a - n, b - a); }
  }

  /** The Map-and-sort at the end of the query leaves a stretch as it is. */
  lemma UniqueRowsOfSlice(log: seq<ChatMessage>, a: nat, b: nat)
    requires IsLog(log) && a <= b <= |log|
    ensures InOrder(ById(log[a..b])) == log[a..b]
  {
    ByIdOfSlice(log, a, b);
    InOrderSlice(log, ById(log[a..b]), a, b);
  }

  lemma RetainedBounds(log: seq<ChatMessage>)
    requires IsLog(log) && log != []
    ensures RetainedRows(log) == Since(log, Oldest(|log|) - 1) && RetainedRows(log) != []
    ensures RetainedRows(log)[0].id == Oldest(|log|) && RetainedRows(log)[|RetainedRows(log)| - 1].id == |log|
  {
  }

  lemma LatestPage(log: seq<ChatMessage>)
    requires IsLog(log) && log != []
    ensures Newest(RetainedRows(log), CHAT_PAGE_SIZE) == Since(log, Max(Oldest(|log|) - 1, |log| - CHAT_PAGE_SIZE))
  {
    hide Newest;
    RetainedBounds(log);
    NewestOfSlice(log, Oldest(|log|) - 1, |log|, CHAT_PAGE_SIZE);
  }

  lemma RowsAfter(log: seq<ChatMessage>, after: nat)
    requires IsLog(log) && log != [] && Oldest(|log|) <= after <= |log|
    ensures Newer(RetainedRows(log), after) == Since(log, after)
  {
    hide Newer;
    RetainedBounds(log);
    NewerOfSlice(log, Oldest(|log|) - 1, |log|, after);
  }

  lemma AppendedRows(log: seq<ChatMessage>, m: ChatMessage)
    requires IsLog(log) && m.id == |log| + 1
    ensures IsLog(log + [m])
    ensures Newer(RetainedRows(log) + [m], m.id - CHAT_RETENTION) == RetainedRows(log + [m])
  {
    hide Newer;
    var longer, start := log + [m], Max(0, |log| - CHAT_RETENTION);
    assert RetainedRows(log) + [m] == longer[start..|longer|];
    NewerOfSlice(longer, start, |longer|, m.id - CHAT_RETENTION);
  }

  /** The rows of the table right below `before`, in order: a full page of them, or
      all there are. */
  ghost predicate NearestBelow(page: seq<ChatMessage>, rows: seq<ChatMessage>, before: nat) {
    && (forall m :: m in page ==> m in rows && m.id < before)
    && (forall i, j :: 0 <= i < j < |page| ==> page[i].id < page[j].id)
    && |page| <= CHAT_PAGE_SIZE
    && forall m :: m in rows && m.id < before && m !in page ==> |page| == CHAT_PAGE_SIZE && m.id < page[0].id
  }

  lemma {:induction false} TablePage(log: seq<ChatMessage>, before: nat)
    requires IsLog(log)
    ensures NearestBelow(OlderPage(log, before), RetainedRows(log), before)
  {
    hide NearestBelow, IsLog;
    var floor, end := Max(0, |log| - CHAT_RETENTION), Max(0, Min(before - 1, |log|));
    if end <= floor {
      assert log[floor..floor] == [];
      StretchIsNearest(log, floor, floor, floor, before);
    } else {
      StretchIsNearest(log, floor, Max(floor, end - CHAT_PAGE_SIZE), end, before);
    }
    assert log[floor..] == log[floor..|log|];
  }

  lemma {:induction false} StretchIsNearest(log: seq<ChatMessage>, floor: nat, start: nat, end: nat, before: nat)
    requires IsLog(log) && floor <= start <= end <= |log| && end - start <= CHAT_PAGE_SIZE
    requires start > floor ==> end - start == CHAT_PAGE_SIZE
    requires end == floor || end < before
    requires before - 1 <= end || |log| == end
    ensures NearestBelow(log[start..end], log[floor..|log|], before)
  {
    hide IsLog;
    var page, rows := log[start..end], log[floor..|log|];
    forall m ensures m in page <==> start < m.id <= end && m == log[m.id - 1] { InStretch(log, start, end, m); }
    forall m ensures m in rows <==> floor < m.id && m.id <= |log| && m == log[m.id - 1] { InStretch(log, floor, |log|, m); }
    IdsOfStretch(log, start, end);
  }

  lemma InStretch(log: seq<ChatMessage>, a: nat, b: nat, m: ChatMessage)
    requires IsLog(log) && a <= b <= |log|
    ensures m in log[a..b] <==> a < m.id <= b && m == log[m.id - 1]
  {
    if m in log[a..b] {
      var i :| 0 <= i < b - a && log[a..b][i] == m;
      assert m == log[a + i];
    }
    if a < m.id <= b && m == log[m.id - 1] { assert log[a..b][m.id - 1 - a] == m; }
  }

  lemma IdsOfStretch(log: seq<ChatMessage>, a: nat, b: nat)
    requires IsLog(log) && a <= b <= |log|
    ensures forall i :: 0 <= i < b - a ==> log[a..b][i].id == a + 1 + i
  {
  }

  /** As long as anything older is retained, a page is not empty, runs up to the
      message asked about, and is short only when it reaches the oldest. */
  lemma OlderPageReaches(log: seq<ChatMessage>, before: nat)
    requires IsLog(log) && Oldest(|log|) < before <= |log| + 1
    ensures var page := OlderPage(log, before);
            log != [] ==>
            && 0 < |page| <= CHAT_PAGE_SIZE && page == log[before - 1 - |page|..before - 1]
            && page[0].id == before - |page| >= Oldest(|log|) && page[|page| - 1].id == before - 1
            && (|page| < CHAT_PAGE_SIZE ==> page[0].id == Oldest(|log|))
  {
  }

  lemma RetainedAre(log: seq<ChatMessage>)
    requires IsLog(log)
    ensures forall m :: m in RetainedRows(log) <==> m in log && m.id > |log| - CHAT_RETENTION
  {
    hide RetainedRows, IsLog;
    RowsAreStretch(log);
    assert log[0..|log|] == log;
    forall m ensures m in RetainedRows(log) <==> m in log && m.id > |log| - CHAT_RETENTION {
      InStretch(log, Max(0, |log| - CHAT_RETENTION), |log|, m);
      InStretch(log, 0, |log|, m);
    }
  }

  class Repository {
    var rows: seq<ChatMessage>
    var lastId: nat
    ghost var log: seq<ChatMessage>

    ghost predicate Valid()
      reads this
    {
      IsLog(log) && lastId == |log| && rows == RetainedRows(log)
    }

    constructor ()
      ensures Valid() && log == []
    {
      rows, lastId, log := [], 0, [];
    }

    /** Insert under the next id, then delete everything past retention. */
    method Append(userId: UserId, displayName: Text, content: ChatContent, createdAt: int) returns (message: ChatMessage)
      requires Valid()
      modifies this
      ensures Valid()
      ensures message == ChatMessage(|old(log)| + 1, userId, displayName, content, createdAt)
      ensures log == old(log) + [message]
      ensures forall m :: m in rows <==> m in log && m.id > message.id - CHAT_RETENTION
    {
      hide Newer, RetainedRows;
      message := ChatMessage(lastId + 1, userId, displayName, content, createdAt);
      lastId := lastId + 1;
      log := log + [message];
      AppendedRows(old(log), message);
      rows := Newer(rows + [message], message.id - CHAT_RETENTION);
      RetainedAre(log);
    }

    method ListBefore(beforeId: nat) returns (page: seq<ChatMessage>)
      requires Valid()
      ensures page == OlderPage(log, beforeId)
      ensures NearestBelow(page, rows, beforeId)
    {
      hide NearestBelow, IsLog;
      TablePage(log, beforeId);
      ghost var start := Max(0, |log| - CHAT_RETENTION);
      assert rows == log[start..|log|];
      UpToOfSlice(log, start, |log|, beforeId - 1);
      page := Newest(UpTo(rows, beforeId - 1), CHAT_PAGE_SIZE);
    }

    /** Which rows the two cursors select, before they are deduplicated. */
    method SelectRows(deliveryCursor: nat, readCursor: Option<nat>) returns (found: seq<ChatMessage>, historyTruncated: bool)
      requires Valid() && log != []
      ensures found == Since(log, WindowStart(|log|, deliveryCursor, readCursor))
      ensures historyTruncated == WindowTruncated(|log|, deliveryCursor, readCursor)
    {
      hide Newer, Newest, IsLog, RetainedRows, Since;
      RetainedBounds(log);
      var oldest, latest := rows[0].id, rows[|rows| - 1].id;
      historyTruncated := false;
      if deliveryCursor > latest || (readCursor.Some? && readCursor.value > latest) {
        LatestPage(log);
        found := Newest(rows, CHAT_PAGE_SIZE);
      } else if deliveryCursor > 0 {
        if deliveryCursor < oldest {
          found := rows;
          historyTruncated := true;
        } else {
          RowsAfter(log, deliveryCursor);
          found := Newer(rows, deliveryCursor);
        }
      } else if readCursor.None? {
        LatestPage(log);
        found := Newest(rows, CHAT_PAGE_SIZE);
      } else if readCursor.value == 0 || readCursor.value < oldest {
        found := rows;
        historyTruncated := if readCursor.value == 0 then oldest > 1 else true;
      } else {
        found := AroundReadCursor(readCursor.value);
      }
    }

    method AroundReadCursor(readCursor: nat) returns (found: seq<ChatMessage>)
      requires Valid() && log != [] && Oldest(|log|) <= readCursor <= |log|
      ensures found == Since(log, Max(Oldest(|log|) - 1, readCursor - CHAT_PAGE_SIZE))
    {
      hide Newer, Newest, UpTo;
      ghost var n, start := |log|, Max(0, |log| - CHAT_RETENTION);
      assert rows == log[start..n];
      UpToOfSlice(log, start, n, readCursor);
      NewerOfSlice(log, start, n, readCursor);
      var context := Newest(UpTo(rows, readCursor), CHAT_PAGE_SIZE);
      var after := Newer(rows, readCursor);
      found := context + after;
      NewestOfSlice(log, start, readCursor, CHAT_PAGE_SIZE);
      Glue(log, Max(start, readCursor - CHAT_PAGE_SIZE), readCursor, n);
    }

    method ListSubscriptionWindow(deliveryCursor: nat, readCursor: Option<nat>) returns (w: Window)
      requires Valid()
      ensures w == SubscriptionWindow(log, deliveryCursor, readCursor)
    {
      hide WindowStart, WindowTruncated, InOrder, ById;
      if rows == [] {
        w := Window([], 0, 0, false, false);
        return;
      }
      var oldest, latest := rows[0].id, rows[|rows| - 1].id;
      var found, historyTruncated := SelectRows(deliveryCursor, readCursor);
      UniqueRowsOfSlice(log, WindowStart(|log|, deliveryCursor, readCursor), |log|);
      found := InOrder(ById(found));
      w := Window(found, latest, oldest, |found| > 0 && found[0].id > oldest, historyTruncated);
    }
  }

  /** The window a reconnecting client gets runs on from its cursor, or starts at
      the retention floor when the cursor has fallen behind it. */
  lemma WindowRunsOn(log: seq<ChatMessage>, deliveryCursor: nat, readCursor: Option<nat>)
    requires IsLog(log) && deliveryCursor <= |log| && (readCursor.Some? ==> readCursor.value <= |log|)
    ensures var w := SubscriptionWindow(log, deliveryCursor, readCursor);
            var p := w.cursor - |w.messages|;
            && w.cursor == |log| && p >= 0 && w.messages == log[p..|log|]
            && w.oldestRetainedId == Oldest(|log|)
            && (log == [] ==> !w.hasOlder)
            && (log != [] ==> 1 <= w.oldestRetainedId <= p + 1 && (w.hasOlder <==> p < |log| && p + 1 > w.oldestRetainedId))
            && (deliveryCursor > 0 ==> p == Max(deliveryCursor, w.oldestRetainedId - 1))
            && (deliveryCursor == 0 && log != [] ==> w.messages != [])
  {
  }

  /** The id up to which this client has everything: what it was delivered, else what it has read. */
  function Reached(deliveryCursor: nat, readCursor: Option<nat>): Option<nat> {
    if deliveryCursor > 0 then Some(deliveryCursor) else readCursor
  }

  /** The window is marked truncated exactly when retention has taken messages the
      client had still to see, or when it has just taken the last one it had seen. */
  lemma TruncatedMeansLost(log: seq<ChatMessage>, deliveryCursor: nat, readCursor: Option<nat>)
    requires IsLog(log) && deliveryCursor <= |log| && (readCursor.Some? ==> readCursor.value <= |log|)
    ensures var w := SubscriptionWindow(log, deliveryCursor, readCursor);
            var reached := Reached(deliveryCursor, readCursor);
            w.historyTruncated <==>
              && log != [] && reached.Some?
              && (reached.value + 1 < Oldest(|log|) || (0 < reached.value == Oldest(|log|) - 1))
  {
  }

  /** The second case is a false alarm: one message past retention, a client that
      has seen the first gets every other one and is told that history is missing. */
  lemma FalseAlarm(log: seq<ChatMessage>)
    requires IsLog(log) && |log| == CHAT_RETENTION + 1
    ensures var w := SubscriptionWindow(log, 1, None);
            w.historyTruncated && w.messages == log[1..]
  {
  }

  /** How much of the past a window holds: a reconnecting client gets everything after
      its cursor, a new one a page, a reader a page of what they have read and everything
      after; each as far as it is retained. */
  lemma {:induction false} WindowReachesBack(log: seq<ChatMessage>, deliveryCursor: nat, readCursor: Option<nat>)
    requires IsLog(log) && log != [] && deliveryCursor <= |log| && (readCursor.Some? ==> readCursor.value <= |log|)
    ensures var w := SubscriptionWindow(log, deliveryCursor, readCursor);
            var after := if deliveryCursor > 0 then deliveryCursor
                         else (if readCursor.None? then |log| else readCursor.value) - CHAT_PAGE_SIZE;
            && (forall m :: m in w.messages <==> m in RetainedRows(log) && m.id > after)
            && (forall i, j :: 0 <= i < j < |w.messages| ==> w.messages[i].id < w.messages[j].id)
  {
    hide RetainedRows, SubscriptionWindow, IsLog;
    var w := SubscriptionWindow(log, deliveryCursor, readCursor);
    var start := WindowStart(|log|, deliveryCursor, readCursor);
    WindowIsStretch(log, deliveryCursor, readCursor);
    IdsOfStretch(log, start, |log|);
    RowsAreStretch(log);
    forall m ensures m in w.messages <==> m in RetainedRows(log) && start < m.id {
      InStretch(log, start, |log|, m);
      InStretch(log, Max(0, |log| - CHAT_RETENTION), |log|, m);
    }
  }

  lemma WindowIsStretch(log: seq<ChatMessage>, deliveryCursor: nat, readCursor: Option<nat>)
    requires log != []
    ensures SubscriptionWindow(log, deliveryCursor, readCursor).messages == log[WindowStart(|log|, deliveryCursor, readCursor)..|log|]
  {
  }

  lemma RowsAreStretch(log: seq<ChatMessage>)
    ensures RetainedRows(log) == log[Max(0, |log| - CHAT_RETENTION)..|log|]
  {
  }
}
