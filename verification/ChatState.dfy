/** The client's message store (apps/client/src/api/chat-state.ts). */
module ChatState {
  import opened Wrappers
  import opened Bounds
  import opened Sorting
  import opened ChatTypes

  const CHAT_FIRST_INDEX: int := 100_000
  const CHAT_CLIENT_CAP: nat := 1_000

  datatype ChatState = ChatState(
    messages: seq<ChatMessage>,
    cursor: nat,
    oldestRetainedId: nat,
    firstItemIndex: int,
    hasOlder: bool,
    historyTruncated: bool)

  const INITIAL: ChatState := ChatState([], 0, 0, CHAT_FIRST_INDEX, true, false)

  /** `messages[i]` sits at logical index `first + i`. */
  function LogicalIndexes(ms: seq<ChatMessage>, first: int): (index: map<int, int>) {
    if ms == [] then map[]
    else LogicalIndexes(ms[..|ms| - 1], first)[ms[|ms| - 1].id := first + |ms| - 1]
  }

  /** Position of the first message whose id is in `index`. */
  function FirstHeld(ms: seq<ChatMessage>, index: map<int, int>, from: nat): (r: Option<nat>)
    requires from <= |ms|
    ensures r.Some? ==> from <= r.value < |ms| && ms[r.value].id in index
    ensures r.Some? ==> forall i :: from <= i < r.value ==> ms[i].id !in index
    ensures r.None? ==> forall i :: from <= i < |ms| ==> ms[i].id !in index
    decreases |ms| - from
  {
    if from == |ms| then None
    else if ms[from].id in index then Some(from)
    else FirstHeld(ms, index, from + 1)
  }

  datatype Merged = Merged(messages: seq<ChatMessage>, firstItemIndex: int, droppedFront: bool)

  /** The union of both lists from the floor up, in id order. */
  function Retained(held: seq<ChatMessage>, incoming: seq<ChatMessage>, floor: nat): (ms: seq<ChatMessage>) {
    var rows := ById(held + incoming);
    InOrder(map id | id in rows && (floor == 0 || id >= floor) :: rows[id])
  }

  function MergeMessages(st: ChatState, incoming: seq<ChatMessage>, oldestRetainedId: nat): (m: Merged) {
    var index := LogicalIndexes(st.messages, st.firstItemIndex);
    var retained := Retained(st.messages, incoming, oldestRetainedId);
    var capped := |retained| > CHAT_CLIENT_CAP;
    var messages := if capped then retained[|retained| - CHAT_CLIENT_CAP..] else retained;
    var overlap := FirstHeld(messages, index, 0);
    Merged(messages,
           if overlap.None? then CHAT_FIRST_INDEX else index[messages[overlap.value].id] - overlap.value,
           capped)
  }

  function HasOlderFor(messages: seq<ChatMessage>, oldestRetainedId: nat, hasOlder: bool): bool {
    if messages == [] then false
    else if oldestRetainedId > 0 then messages[0].id > oldestRetainedId
    else hasOlder
  }

  datatype Metadata = Metadata(cursor: nat, oldestRetainedId: nat, hasOlder: bool, historyTruncated: bool, replaceHistory: bool)

  function OverlapsHeld(st: ChatState, incoming: seq<ChatMessage>, meta: Metadata): bool {
    meta.replaceHistory && exists m, h :: m in incoming && h in st.messages && m.id == h.id
  }

  function RetainedFloor(st: ChatState, incoming: seq<ChatMessage>, meta: Metadata): nat {
    if OverlapsHeld(st, incoming, meta) then Max(meta.oldestRetainedId, st.oldestRetainedId) else meta.oldestRetainedId
  }

  function NextState(st: ChatState, incoming: seq<ChatMessage>, meta: Metadata): (next: ChatState) {
    var floor := RetainedFloor(st, incoming, meta);
    Settle(st, MergeMessages(st, incoming, floor), floor, OverlapsHeld(st, incoming, meta), meta)
  }

  function Settle(st: ChatState, merged: Merged, floor: nat, overlapsHeld: bool, meta: Metadata): (next: ChatState) {
    var preserveClientBoundary := overlapsHeld && st.historyTruncated && !st.hasOlder;
    var truncated := if meta.replaceHistory
                     then meta.historyTruncated || preserveClientBoundary || merged.droppedFront
                     else st.historyTruncated || meta.historyTruncated || merged.droppedFront;
    var next := ChatState(
      merged.messages,
      Max(st.cursor, meta.cursor),
      floor,
      merged.firstItemIndex,
      if floor > 0 then HasOlderFor(merged.messages, floor, st.hasOlder) else meta.hasOlder,
      truncated);
    if merged.droppedFront then
      next.(oldestRetainedId := if merged.messages != [] then merged.messages[0].id else meta.oldestRetainedId,
            hasOlder := false)
    else next
  }

  function WithHistory(st: ChatState, frame: Window): (next: ChatState) {
    if frame.cursor < st.cursor then
      ChatState(frame.messages, frame.cursor, frame.oldestRetainedId, CHAT_FIRST_INDEX, frame.hasOlder, frame.historyTruncated)
    else
      NextState(st, frame.messages, Metadata(frame.cursor, frame.oldestRetainedId, frame.hasOlder, frame.historyTruncated, true))
  }

  function WithMessage(st: ChatState, message: ChatMessage): (next: ChatState) {
    if message.id <= st.cursor then st
    else NextState(st, [message], Metadata(message.id, st.oldestRetainedId, st.hasOlder, st.historyTruncated, false))
  }

  function WithOlderPage(st: ChatState, page: seq<ChatMessage>): (next: ChatState) {
    var hasOlder := if st.oldestRetainedId > 0 then st.hasOlder else |page| == CHAT_PAGE_SIZE;
    var next := NextState(st, page, Metadata(st.cursor, st.oldestRetainedId, hasOlder, st.historyTruncated, false));
    if st.oldestRetainedId == 0 && |page| < CHAT_PAGE_SIZE then next.(hasOlder := false) else next
  }

  // ---- What the store looks like when it holds a stretch of the log ----

  /** The id of the oldest message held: the stretch is `[First, cursor]`. */
  function First(st: ChatState): int { st.cursor - |st.messages| + 1 }

  /** The messages are exactly the log entries `First .. cursor`: increasing,
      without duplicates, without holes, and ending at the cursor. */
  ghost predicate Contiguous(st: ChatState, h: seq<ChatMessage>) {
    && First(st) >= 1 && st.cursor <= |h|
    && st.messages == h[First(st) - 1..st.cursor]
    && |st.messages| <= CHAT_CLIENT_CAP
    && st.oldestRetainedId <= First(st)
    && (st.cursor > 0 ==> st.messages != [])
    // Once rows are held, `hasOlder` says exactly whether the log has retained rows before them.
    && (st.messages != [] ==> (st.hasOlder <==> First(st) > Max(1, st.oldestRetainedId)))
    // No retention floor is known only while the log was still empty when it was asked for.
    && (st.messages != [] && st.oldestRetainedId == 0 ==> First(st) == 1)
  }

  /** Every message held both before and after keeps its place in the list. */
  ghost predicate SurvivorsKeepIndex(st: ChatState, next: ChatState) {
    forall m, n :: 0 <= m < |st.messages| && 0 <= n < |next.messages| && st.messages[m].id == next.messages[n].id
      ==> st.firstItemIndex + m == next.firstItemIndex + n
  }

  lemma {:induction false} IndexesOfSlice(h: seq<ChatMessage>, a: nat, b: nat, first: int)
    requires IsLog(h) && a <= b <= |h|
    ensures forall id :: id in LogicalIndexes(h[a..b], first) <==> a < id <= b
    ensures forall id :: a < id <= b ==> LogicalIndexes(h[a..b], first)[id] == first + (id - 1 - a)
    decreases b
  {
    if a < b {
      assert h[a..b][..b - a - 1] == h[a..b - 1];
      IndexesOfSlice(h, a, b - 1, first);
    }
  }

  ghost predicate Kept(id: int, a: int, c: int, p: int, q: int, floor: int) {
    (floor == 0 || id >= floor) && (a < id <= c || p < id <= q)
  }

  /** The union of both stretches above the floor is the interval `lo < id <= hi`. */
  ghost predicate Fills(a: int, c: int, p: int, q: int, floor: int, lo: int, hi: int) {
    forall id :: Kept(id, a, c, p, q, floor) <==> lo < id <= hi
  }

  lemma {:induction false} FillsTouching(a: int, c: int, p: int, q: int, floor: int)
    requires 0 <= a < c && 0 <= p <= c && p < q && a <= q && floor <= Max(c, q)
    ensures Fills(a, c, p, q, floor, Max(Min(a, p), floor - 1), Max(c, q))
  {
  }

  lemma {:induction false} FillsHeldOnly(a: int, c: int, p: int, q: int, floor: int)
    requires 0 <= a < c && 0 <= p <= q && (p == q || q < floor) && floor <= c
    ensures Fills(a, c, p, q, floor, Max(a, floor - 1), c)
  {
  }

  lemma {:induction false} FillsIncomingOnly(a: int, c: int, p: int, q: int, floor: int)
    requires 0 <= a <= c && (a == c || c < floor) && 0 <= p <= q && c <= q && floor <= q
    ensures Fills(a, c, p, q, floor, Max(p, floor - 1), q)
  {
  }

  /** The rows a merge starts from: both stretches, each row under its own id. */
  lemma {:induction false} RowsOfUnion(h: seq<ChatMessage>, a: nat, c: nat, p: nat, q: nat, id: int)
    requires IsLog(h) && a <= c <= |h| && p <= q <= |h|
    ensures id in ById(h[a..c] + h[p..q]) <==> a < id <= c || p < id <= q
    ensures id in ById(h[a..c] + h[p..q]) ==> ById(h[a..c] + h[p..q])[id] == h[id - 1]
  {
    ByIdConcat(h[a..c], h[p..q]);
    ByIdOfSlice(h, a, c);
    ByIdOfSlice(h, p, q);
  }

  /** The retained rows of a merge of `h[a..c]` with `h[p..q]`. */
  lemma {:induction false} RetainedSlice(h: seq<ChatMessage>, a: nat, c: nat, p: nat, q: nat, floor: nat, lo: nat, hi: nat)
    requires IsLog(h) && a <= c <= |h| && p <= q <= |h| && lo <= hi <= |h|
    requires Fills(a, c, p, q, floor, lo, hi)
    ensures Retained(h[a..c], h[p..q], floor) == h[lo..hi]
  {
    var rows := ById(h[a..c] + h[p..q]);
    var kept := map id | id in rows && (floor == 0 || id >= floor) :: rows[id];
    forall id ensures id in kept <==> lo < id <= hi {
      RowsOfUnion(h, a, c, p, q, id);
      assert Kept(id, a, c, p, q, floor) <==> lo < id <= hi;
    }
    forall id | id in kept ensures kept[id] == h[id - 1] {
      RowsOfUnion(h, a, c, p, q, id);
    }
    InOrderSlice(h, kept, lo, hi);
  }

  /** Where the first message held before sits after the merge. */
  lemma {:induction false} FirstHeldOfSlice(h: seq<ChatMessage>, a: nat, c: nat, from: nat, hi: nat, first: int)
    requires IsLog(h) && a <= c <= |h| && from <= hi <= |h|
    ensures var index := LogicalIndexes(h[a..c], first);
            var r := FirstHeld(h[from..hi], index, 0);
            if Max(from, a) < Min(hi, c)
            then r == Some(Max(from, a) - from) && index[h[from..hi][r.value].id] == first + Max(from, a) - a
            else r == None
  {
    IndexesOfSlice(h, a, c, first);
    var index := LogicalIndexes(h[a..c], first);
    if Max(from, a) < Min(hi, c) {
      assert h[from..hi][Max(from, a) - from].id in index;
    }
  }

  /** Merging two stretches whose union above the floor is `lo < id <= hi`: the
      cap cuts the front of it, nothing else, and survivors keep their index. */
  lemma {:induction false} MergeOfSlices(st: ChatState, h: seq<ChatMessage>, a: nat, c: nat, p: nat, q: nat, floor: nat, lo: nat, hi: nat)
    requires IsLog(h) && a <= c <= |h| && p <= q <= |h| && lo <= hi <= |h|
    requires st.messages == h[a..c]
    requires Fills(a, c, p, q, floor, lo, hi)
    ensures var from := if hi - lo > CHAT_CLIENT_CAP then hi - CHAT_CLIENT_CAP else lo;
            MergeMessages(st, h[p..q], floor) ==
            Merged(h[from..hi],
                   if Max(from, a) < Min(hi, c) then st.firstItemIndex + (from - a) else CHAT_FIRST_INDEX,
                   hi - lo > CHAT_CLIENT_CAP)
  {
    RetainedSlice(h, a, c, p, q, floor, lo, hi);
    var from := if hi - lo > CHAT_CLIENT_CAP then hi - CHAT_CLIENT_CAP else lo;
    assert h[lo..hi][from - lo..] == h[from..hi];
    FirstHeldOfSlice(h, a, c, from, hi, st.firstItemIndex);
  }

  /** A history window that can extend what `st` holds: a stretch of the log that
      ends at its cursor and either touches the held stretch, or starts at the
      retention floor so that everything held is dropped. */
  ghost predicate Extends(w: Window, st: ChatState, h: seq<ChatMessage>) {
    && st.cursor <= w.cursor <= |h| && |w.messages| <= w.cursor
    && w.messages == h[w.cursor - |w.messages|..w.cursor]
    && (w.cursor == 0 ==> w.oldestRetainedId == 0 && !w.hasOlder)
    && (w.cursor > 0 ==> 1 <= w.oldestRetainedId <= w.cursor && w.oldestRetainedId <= w.cursor - |w.messages| + 1)
    && (st.messages == [] && w.cursor > 0 ==> w.messages != [])
    && (st.messages != [] ==> w.cursor - |w.messages| <= st.cursor || w.cursor - |w.messages| + 1 == w.oldestRetainedId)
  }

  /** The first id held after a merge ending at `hi` whose union starts after `lo`. */
  function CappedFirst(lo: int, hi: int): int {
    1 + if hi - lo > CHAT_CLIENT_CAP then hi - CHAT_CLIENT_CAP else lo
  }

  /** Two stretches of one log whose common part starts at the same logical index. */
  lemma {:induction false} SurvivorsOfSlices(st: ChatState, next: ChatState, h: seq<ChatMessage>, a: nat, c: nat, b: nat, d: nat)
    requires IsLog(h) && a <= c <= |h| && b <= d <= |h|
    requires st.messages == h[a..c] && next.messages == h[b..d]
    requires Max(a, b) < Min(c, d) ==> next.firstItemIndex - b == st.firstItemIndex - a
    ensures SurvivorsKeepIndex(st, next)
  {
    forall m, n | 0 <= m < |st.messages| && 0 <= n < |next.messages| && st.messages[m].id == next.messages[n].id
      ensures st.firstItemIndex + m == next.firstItemIndex + n
    {
      assert st.messages[m] == h[a + m] && next.messages[n] == h[b + n];
    }
  }

  /** What settling a merge of stretches yields. */
  lemma {:induction false} SettleSlices(st: ChatState, h: seq<ChatMessage>, from: nat, hi: nat, index: int, capped: bool, floor: nat, overlaps: bool, meta: Metadata)
    requires IsLog(h) && from <= hi <= |h| && hi == Max(st.cursor, meta.cursor)
    requires capped ==> from < hi
    ensures var next := Settle(st, Merged(h[from..hi], index, capped), floor, overlaps, meta);
            && next.cursor == hi && next.messages == h[from..hi] && next.firstItemIndex == index
            && next.oldestRetainedId == (if capped then from + 1 else floor)
            && next.hasOlder == (if capped then false else if floor > 0 then from < hi && from + 1 > floor else meta.hasOlder)
  {
  }

  /** What one merge does to a contiguous store, whichever frame caused it. */
  lemma {:induction false} NextStateOfSlices(st: ChatState, h: seq<ChatMessage>, a: nat, p: nat, q: nat, meta: Metadata, floor: nat, lo: nat, hi: nat, next: ChatState)
    requires IsLog(h) && a <= st.cursor <= |h| && st.messages == h[a..st.cursor]
    requires hi == Max(st.cursor, meta.cursor)
    requires p <= q <= |h| && lo <= hi <= |h|
    requires floor == RetainedFloor(st, h[p..q], meta)
    requires Fills(a, st.cursor, p, q, floor, lo, hi)
    requires next == NextState(st, h[p..q], meta)
    ensures var from := CappedFirst(lo, hi) - 1;
            && next.cursor == hi && 0 <= from <= hi && next.messages == h[from..hi]
            && next.oldestRetainedId == (if from > lo then from + 1 else floor)
            && next.hasOlder == (if from > lo then false else if floor > 0 then from < hi && from + 1 > floor else meta.hasOlder)
    ensures SurvivorsKeepIndex(st, next)
  {
    hide MergeMessages, Settle, OverlapsHeld, RetainedFloor, Fills, SurvivorsKeepIndex;
    MergeOfSlices(st, h, a, st.cursor, p, q, floor, lo, hi);
    var from := CappedFirst(lo, hi) - 1;
    var index := if Max(from, a) < Min(hi, st.cursor) then st.firstItemIndex + (from - a) else CHAT_FIRST_INDEX;
    SettleSlices(st, h, from, hi, index, hi - lo > CHAT_CLIENT_CAP, floor, OverlapsHeld(st, h[p..q], meta), meta);
    SurvivorsOfSlices(st, next, h, a, st.cursor, from, hi);
  }

  lemma {:induction false} ContiguousSlices(next: ChatState, h: seq<ChatMessage>, from: nat)
    requires from <= next.cursor <= |h| && next.messages == h[from..next.cursor]
    requires next.cursor - from <= CHAT_CLIENT_CAP && next.oldestRetainedId <= from + 1
    requires next.cursor > 0 ==> from < next.cursor
    requires from < next.cursor ==> (next.hasOlder <==> from + 1 > Max(1, next.oldestRetainedId))
    requires from < next.cursor && next.oldestRetainedId == 0 ==> from == 0
    ensures Contiguous(next, h) && First(next) == from + 1
  {
  }

  /** A merge whose union starts right after `lo` leaves a contiguous store. */
  lemma {:induction false} NextStateKeepsContiguous(st: ChatState, h: seq<ChatMessage>, a: nat, p: nat, q: nat, meta: Metadata, floor: nat, lo: nat, hi: nat, next: ChatState)
    requires IsLog(h) && a <= st.cursor <= |h| && st.messages == h[a..st.cursor]
    requires hi == Max(st.cursor, meta.cursor)
    requires p <= q <= |h| && lo <= hi <= |h| && (hi > 0 ==> lo < hi)
    requires floor == RetainedFloor(st, h[p..q], meta) && floor <= lo + 1
    requires floor == 0 ==> lo == 0 && !meta.hasOlder
    requires Fills(a, st.cursor, p, q, floor, lo, hi)
    requires next == NextState(st, h[p..q], meta)
    ensures Contiguous(next, h) && next.cursor == hi
    ensures First(next) == CappedFirst(lo, hi)
    ensures next.oldestRetainedId == if First(next) > lo + 1 then First(next) else floor
    ensures hi == 0 ==> !next.hasOlder
    ensures SurvivorsKeepIndex(st, next)
  {
    hide NextState, RetainedFloor, Fills, SurvivorsKeepIndex, Contiguous, IsLog;
    NextStateOfSlices(st, h, a, p, q, meta, floor, lo, hi, next);
    ContiguousSlices(next, h, CappedFirst(lo, hi) - 1);
  }

  lemma {:induction false} MessageIsNextState(st: ChatState, h: seq<ChatMessage>, meta: Metadata)
    requires IsLog(h) && st.cursor < |h|
    requires meta == Metadata(st.cursor + 1, st.oldestRetainedId, st.hasOlder, st.historyTruncated, false)
    ensures WithMessage(st, h[st.cursor]) == NextState(st, h[st.cursor..st.cursor + 1], meta)
  {
    assert h[st.cursor..st.cursor + 1] == [h[st.cursor]];
  }

  /** The live message right after the cursor extends the stretch by one. */
  lemma {:induction false} MessageKeepsContiguous(st: ChatState, h: seq<ChatMessage>, next: ChatState)
    requires IsLog(h) && Contiguous(st, h) && st.cursor < |h|
    requires st.messages == [] ==> !st.hasOlder && st.oldestRetainedId == 0
    requires next == WithMessage(st, h[st.cursor])
    ensures Contiguous(next, h) && next.cursor == st.cursor + 1
    ensures || (First(next) == First(st) && next.oldestRetainedId == st.oldestRetainedId)
            || First(next) == next.oldestRetainedId == next.cursor - CHAT_CLIENT_CAP + 1
    ensures SurvivorsKeepIndex(st, next)
  {
    hide NextState, RetainedFloor;
    var c := st.cursor;
    var meta := Metadata(c + 1, st.oldestRetainedId, st.hasOlder, st.historyTruncated, false);
    var a, f := First(st) - 1, st.oldestRetainedId;
    if st.messages == [] {
      FillsIncomingOnly(a, c, c, c + 1, f);
    } else {
      FillsTouching(a, c, c, c + 1, f);
    }
    MessageIsNextState(st, h, meta);
    FloorOfMessage(st, h[c..c + 1], meta);
    NextStateKeepsContiguous(st, h, a, c, c + 1, meta, f, a, c + 1, next);
  }

  /** The store admits to missing history when its cap cut the front of this merge,
      when the frame says so, or when it did so before: across live messages and
      pages always, across a history frame only while that frame still overlaps
      what is held and nothing older could be asked for. */
  lemma {:induction false} MissingHistoryIsTold(st: ChatState, h: seq<ChatMessage>, a: nat, p: nat, q: nat, meta: Metadata, floor: nat, lo: nat, hi: nat, next: ChatState)
    requires IsLog(h) && a <= st.cursor <= |h| && st.messages == h[a..st.cursor]
    requires p <= q <= |h| && lo <= hi <= |h|
    requires floor == RetainedFloor(st, h[p..q], meta)
    requires Fills(a, st.cursor, p, q, floor, lo, hi)
    requires next == NextState(st, h[p..q], meta)
    ensures next.historyTruncated <==>
            || hi - lo > CHAT_CLIENT_CAP || meta.historyTruncated
            || (st.historyTruncated && (meta.replaceHistory ==> OverlapsHeld(st, h[p..q], meta) && !st.hasOlder))
    ensures hi - lo > CHAT_CLIENT_CAP ==> !next.hasOlder
  {
    MergeOfSlices(st, h, a, st.cursor, p, q, floor, lo, hi);
  }

  /** A live message makes the store forget its oldest one exactly when it is full,
      and from then on the store says that history is missing. */
  lemma {:induction false} FullStoreForgetsItsOldest(st: ChatState, h: seq<ChatMessage>, next: ChatState)
    requires IsLog(h) && Contiguous(st, h) && st.messages != [] && st.cursor < |h|
    requires next == WithMessage(st, h[st.cursor])
    ensures First(next) == First(st) + if |st.messages| == CHAT_CLIENT_CAP then 1 else 0
    ensures next.historyTruncated <==> st.historyTruncated || |st.messages| == CHAT_CLIENT_CAP
  {
    hide NextState, RetainedFloor;
    var c, a, f := st.cursor, First(st) - 1, st.oldestRetainedId;
    var meta := Metadata(c + 1, f, st.hasOlder, st.historyTruncated, false);
    FillsTouching(a, c, c, c + 1, f);
    MessageIsNextState(st, h, meta);
    FloorOfMessage(st, h[c..c + 1], meta);
    NextStateKeepsContiguous(st, h, a, c, c + 1, meta, f, a, c + 1, next);
    MissingHistoryIsTold(st, h, a, c, c + 1, meta, f, a, c + 1, next);
  }

  lemma {:induction false} PageIsNextState(st: ChatState, page: seq<ChatMessage>, meta: Metadata, next: ChatState)
    requires |page| <= CHAT_PAGE_SIZE
    requires st.oldestRetainedId == 0 ==> page == []
    requires meta == Metadata(st.cursor, st.oldestRetainedId, st.oldestRetainedId > 0 && st.hasOlder, st.historyTruncated, false)
    requires next == NextState(st, page, meta)
    ensures WithOlderPage(st, page) == if st.oldestRetainedId == 0 then next.(hasOlder := false) else next
  {
  }

  lemma {:induction false} HeldStretch(st: ChatState, h: seq<ChatMessage>)
    requires Contiguous(st, h) && st.messages != []
    ensures 1 <= First(st) <= st.cursor <= |h| && st.messages == h[First(st) - 1..st.cursor]
    ensures st.cursor - First(st) < CHAT_CLIENT_CAP && st.oldestRetainedId <= First(st)
    ensures st.oldestRetainedId == 0 ==> First(st) == 1 && !st.hasOlder
    ensures st.oldestRetainedId > 0 ==> (st.hasOlder <==> First(st) > st.oldestRetainedId)
  {
  }

  lemma {:induction false} NothingOlder(st: ChatState, h: seq<ChatMessage>)
    requires Contiguous(st, h) && st.cursor > 0 && st.oldestRetainedId == 0
    ensures !st.hasOlder
  {
  }

  /** An older page asked for before id `before`. It may arrive late: then either
      the stretch still starts at or before `before`, or the floor has passed it
      and the whole page is filtered out. */
  lemma {:induction false} PageKeepsContiguous(st: ChatState, h: seq<ChatMessage>, x: nat, before: nat, next: ChatState)
    requires IsLog(h) && Contiguous(st, h) && st.messages != []
    requires x < before && before - 1 <= st.cursor && before - 1 - x <= CHAT_PAGE_SIZE
    requires First(st) <= before || st.oldestRetainedId >= before
    requires st.oldestRetainedId == 0 ==> before == 1
    requires next == WithOlderPage(st, h[x..before - 1])
    ensures Contiguous(next, h) && next.cursor == st.cursor
    ensures First(next) <= First(st)
    ensures if st.oldestRetainedId < before && x < before - 1
            then First(next) == Max(Max(st.oldestRetainedId, Min(First(st), x + 1)), st.cursor - CHAT_CLIENT_CAP + 1)
            else First(next) == First(st) && next.oldestRetainedId == st.oldestRetainedId
    ensures next.oldestRetainedId >= st.oldestRetainedId
    ensures st.oldestRetainedId == 0 ==> next.oldestRetainedId == 0
    ensures SurvivorsKeepIndex(st, next)
  {
    hide NextState, RetainedFloor, WithOlderPage, SurvivorsKeepIndex, Fills, Contiguous, IsLog;
    HeldStretch(st, h);
    var meta := Metadata(st.cursor, st.oldestRetainedId, st.oldestRetainedId > 0 && st.hasOlder, st.historyTruncated, false);
    var a, f := First(st) - 1, st.oldestRetainedId;
    var q := before - 1;
    var merged := NextState(st, h[x..q], meta);
    PageIsNextState(st, h[x..q], meta, merged);
    FloorOfMessage(st, h[x..q], meta);
    assert st.oldestRetainedId == 0 ==> next == merged.(hasOlder := false);
    if f < before && x < q {
      FillsTouching(a, st.cursor, x, q, f);
      NextStateKeepsContiguous(st, h, a, x, q, meta, f, Max(Min(a, x), f - 1), st.cursor, merged);
    } else {
      FillsHeldOnly(a, st.cursor, x, q, f);
      NextStateKeepsContiguous(st, h, a, x, q, meta, f, a, st.cursor, merged);
    }
    if f == 0 { NothingOlder(merged, h); }
  }

  lemma {:induction false} HistoryIsNextState(st: ChatState, w: Window, meta: Metadata)
    requires w.cursor >= st.cursor
    requires meta == Metadata(w.cursor, w.oldestRetainedId, w.hasOlder, w.historyTruncated, true)
    ensures WithHistory(st, w) == NextState(st, w.messages, meta)
  {
  }

  lemma {:induction false} FloorOfMessage(st: ChatState, incoming: seq<ChatMessage>, meta: Metadata)
    requires !meta.replaceHistory
    ensures RetainedFloor(st, incoming, meta) == meta.oldestRetainedId
  {
  }

  /** The store holds the log from after `a`, the window from after `p`, each to its cursor. */
  ghost predicate LieAt(st: ChatState, w: Window, h: seq<ChatMessage>, a: int, p: int) {
    && 0 <= a <= st.cursor <= w.cursor <= |h| && 0 <= p <= w.cursor
    && st.messages == h[a..st.cursor] && w.messages == h[p..w.cursor]
  }

  /** Where the two stretches lie, and what the frame's floor is worth. */
  lemma {:induction false} HistoryStretches(st: ChatState, h: seq<ChatMessage>, w: Window)
    requires IsLog(h) && Contiguous(st, h) && Extends(w, st, h)
    ensures var p, q, a, c := w.cursor - |w.messages|, w.cursor, First(st) - 1, st.cursor;
            && LieAt(st, w, h, a, p) && 0 <= p <= q <= |h| && 0 <= a <= c <= q
            && w.oldestRetainedId <= p + 1 && st.oldestRetainedId <= a + 1 && c - a <= CHAT_CLIENT_CAP
            && (a == c <==> st.messages == []) && (a == c ==> c == 0)
            && (a == c && q > 0 ==> p < q) && (a < c && p > c ==> p + 1 == w.oldestRetainedId)
            && (q == 0 ==> w.oldestRetainedId == 0 && !w.hasOlder) && (q > 0 ==> 1 <= w.oldestRetainedId <= q)
  {
  }

  lemma {:induction false} MergedHistory(st: ChatState, h: seq<ChatMessage>, w: Window, a: nat, p: nat, floor: nat, lo: nat, next: ChatState)
    requires IsLog(h) && LieAt(st, w, h, a, p) && lo <= w.cursor && (w.cursor > 0 ==> lo < w.cursor)
    requires floor == HistoryFloor(st, w) && floor <= lo + 1 && (floor == 0 ==> lo == 0 && !w.hasOlder)
    requires Fills(a, st.cursor, p, w.cursor, floor, lo, w.cursor)
    requires next == WithHistory(st, w)
    ensures Contiguous(next, h) && next.cursor == w.cursor && First(next) == CappedFirst(lo, w.cursor)
    ensures next.oldestRetainedId == if First(next) > lo + 1 then First(next) else floor
    ensures w.cursor == 0 ==> !next.hasOlder
    ensures SurvivorsKeepIndex(st, next)
  {
    hide NextState, RetainedFloor, WithHistory, SurvivorsKeepIndex, Fills, Contiguous, IsLog;
    var meta := Metadata(w.cursor, w.oldestRetainedId, w.hasOlder, w.historyTruncated, true);
    HistoryIsNextState(st, w, meta);
    NextStateKeepsContiguous(st, h, a, p, w.cursor, meta, floor, lo, w.cursor, next);
  }

  function HistoryFloor(st: ChatState, w: Window): nat {
    RetainedFloor(st, w.messages, Metadata(w.cursor, w.oldestRetainedId, w.hasOlder, w.historyTruncated, true))
  }

  lemma {:induction false} HistoryFloorIs(st: ChatState, h: seq<ChatMessage>, w: Window, a: nat, p: nat)
    requires IsLog(h) && LieAt(st, w, h, a, p)
    ensures HistoryFloor(st, w) == w.oldestRetainedId || HistoryFloor(st, w) == Max(w.oldestRetainedId, st.oldestRetainedId)
    ensures st.messages == [] || st.cursor < p ==> HistoryFloor(st, w) == w.oldestRetainedId
    ensures p < a < st.cursor ==> HistoryFloor(st, w) == Max(w.oldestRetainedId, st.oldestRetainedId)
  {
    if p < a < st.cursor {
      assert w.messages[a - p] == st.messages[0] && w.messages[a - p] in w.messages && st.messages[0] in st.messages;
    }
  }

  /** A history frame keeps the store a stretch of the log and moves its end to
      the frame's cursor; what survives keeps its place in the list. */
  lemma {:induction false} HistoryKeepsContiguous(st: ChatState, h: seq<ChatMessage>, w: Window, next: ChatState)
    requires IsLog(h) && Contiguous(st, h) && Extends(w, st, h)
    requires next == WithHistory(st, w)
    ensures Contiguous(next, h) && next.cursor == w.cursor
    ensures w.cursor == 0 ==> !next.hasOlder && next.oldestRetainedId == 0
    ensures next.oldestRetainedId >= w.oldestRetainedId
    ensures var first := w.cursor - |w.messages| + 1;
            First(next) == Max(w.cursor - CHAT_CLIENT_CAP + 1,
                               if st.messages == [] || first > st.cursor + 1 then first
                               else if first >= First(st) then Max(First(st), w.oldestRetainedId)
                               else Max(first, st.oldestRetainedId))
    ensures First(next) != w.cursor - CHAT_CLIENT_CAP + 1
            ==> next.oldestRetainedId == w.oldestRetainedId || next.oldestRetainedId == Max(w.oldestRetainedId, st.oldestRetainedId)
    ensures st.messages != [] && First(next) > First(st)
            ==> next.oldestRetainedId == First(next)
                && (First(next) <= w.oldestRetainedId || First(next) == w.cursor - CHAT_CLIENT_CAP + 1)
    ensures SurvivorsKeepIndex(st, next)
  {
    hide Contiguous, Extends, WithHistory, SurvivorsKeepIndex, Fills, IsLog, LieAt, HistoryFloor;
    HistoryStretches(st, h, w);
    var p: nat, q := w.cursor - |w.messages|, w.cursor;
    var a: nat, c := First(st) - 1, st.cursor;
    HistoryFloorIs(st, h, w, a, p);
    var floor: int := HistoryFloor(st, w);
    if a == c {
      FillsIncomingOnly(a, c, p, q, floor);
      MergedHistory(st, h, w, a, p, floor, Max(p, floor - 1), next);
    } else if p > c {
      FillsIncomingOnly(a, c, p, q, floor);
      MergedHistory(st, h, w, a, p, floor, p, next);
    } else if p == q {
      FillsHeldOnly(a, c, p, q, floor);
      MergedHistory(st, h, w, a, p, floor, Max(a, floor - 1), next);
    } else {
      FillsTouching(a, c, p, q, floor);
      MergedHistory(st, h, w, a, p, floor, Max(Min(a, p), floor - 1), next);
    }
  }
}
