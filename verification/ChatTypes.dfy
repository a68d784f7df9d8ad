/** The wire vocabulary of global chat (packages/protocol/src/chat.ts). */
module ChatTypes {
  import opened Wrappers
  import opened Bounds
  import opened Slices
  import opened Sorting

  /** A total order on ids is all the source needs of them. */
  type UserId = nat

  /** One UTF-16 code unit: what lengths and ranges count. */
  newtype CodeUnit = x: int | 0 <= x < 0x1_0000

  type Text = seq<CodeUnit>

  const AT: CodeUnit := 64
  const SPACE: CodeUnit := 32

  const CHAT_PAGE_SIZE: nat := 50
  const CHAT_MAX_TEXT_LENGTH: nat := 500
  const CHAT_MAX_MENTION_RECIPIENTS: nat := 8

  /** A raw mention: the range fields are plain numbers until they are checked. */
  datatype ChatMention = ChatMention(userId: UserId, start: int, length: int)

  datatype ChatContent = ChatContent(text: Text, mentions: seq<ChatMention>)

  datatype ChatMessage = ChatMessage(id: nat, userId: UserId, displayName: Text, content: ChatContent, createdAt: int)

  /** The window one subscription reads; sent as the `history` frame. */
  datatype Window = Window(messages: seq<ChatMessage>, cursor: nat, oldestRetainedId: nat, hasOlder: bool, historyTruncated: bool)

  datatype ServerFrame = History(window: Window) | Message(message: ChatMessage)

  /** Everything ever appended: ids count up from 1 without gaps, because the
      table's AUTOINCREMENT key is only advanced by a committed insert. */
  ghost predicate IsLog(h: seq<ChatMessage>) {
    forall i :: 0 <= i < |h| ==> h[i].id == i + 1
  }

  // ---- Rows keyed by id, and back in order ----

  /** The Map the merge fills: a later row replaces an earlier one. */
  function ById(ms: seq<ChatMessage>): (rows: map<int, ChatMessage>) {
    if ms == [] then map[]
    else ById(ms[..|ms| - 1])[ms[|ms| - 1].id := ms[|ms| - 1]]
  }

  /** The rows of a Map in the order of their ids. */
  function InOrder(rows: map<int, ChatMessage>): (ms: seq<ChatMessage>)
    decreases |rows|
  {
    if rows == map[] then []
    else
      var first := Minimum(rows.Keys);
      [rows[first]] + InOrder(rows - {first})
  }

  lemma {:induction false} ByIdOfSlice(h: seq<ChatMessage>, a: nat, b: nat)
    requires IsLog(h) && a <= b <= |h|
    ensures forall id :: id in ById(h[a..b]) <==> a < id <= b
    ensures forall id :: a < id <= b ==> ById(h[a..b])[id] == h[id - 1]
    decreases b
  {
    if a < b {
      assert h[a..b][..b - a - 1] == h[a..b - 1];
      ByIdOfSlice(h, a, b - 1);
    }
  }

  lemma {:induction false} ByIdConcat(x: seq<ChatMessage>, y: seq<ChatMessage>)
    ensures ById(x + y) == ById(x) + ById(y)
    decreases |y|
  {
    if y == [] {
      assert x + y == x;
    } else {
      assert (x + y)[..|x + y| - 1] == x + y[..|y| - 1];
      ByIdConcat(x, y[..|y| - 1]);
    }
  }

  lemma FirstInOrder(rows: map<int, ChatMessage>, first: int)
    requires first in rows && forall id :: id in rows ==> first <= id
    ensures InOrder(rows) == [rows[first]] + InOrder(rows - {first})
  {
    assert first in rows.Keys;
    assert Minimum(rows.Keys) == first;
  }

  lemma {:induction false} InOrderSlice(h: seq<ChatMessage>, rows: map<int, ChatMessage>, lo: nat, hi: nat)
    requires lo <= hi <= |h|
    requires forall id :: id in rows <==> lo < id <= hi
    requires forall id :: id in rows ==> rows[id] == h[id - 1]
    ensures InOrder(rows) == h[lo..hi]
    decreases hi - lo
  {
    if lo == hi {
      assert rows == map[];
    } else {
      assert lo + 1 in rows;
      FirstInOrder(rows, lo + 1);
      InOrderSlice(h, rows - {lo + 1}, lo + 1, hi);
      Glue(h, lo, lo + 1, hi);
      assert h[lo..lo + 1] == [h[lo]];
    }
  }
}
