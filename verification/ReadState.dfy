/** What a reader has read, as a mark and a few ids beyond it
    (apps/client/src/chat/read-state.ts). */
module ReadState {
  import opened Wrappers
  import opened Bounds
  import opened Sorting
  import ChatTypes

  type UserId = ChatTypes.UserId

  /** A message as far as reading it goes. */
  datatype Row = Row(id: int, author: UserId, mentioned: set<UserId>)

  datatype State = State(readThrough: int, seenAfter: seq<int>)

  predicate ValidId(id: int) { id >= 0 }

  function Beyond(ids: set<int>, mark: int): set<int> { set id | id in ids && id > mark }

  // ---- Canonical states ----

  /** The ids beyond the mark that a state has seen. */
  function Seen(s: State): set<int> { set id | id in s.seenAfter && ValidId(id) && id > Mark(s) }

  function Mark(s: State): int { if ValidId(s.readThrough) then s.readThrough else 0 }

  /** A valid mark, and ascending ids beyond it. */
  function Canonical(s: State): State { State(Mark(s), Sorted(Seen(s))) }

  ghost predicate IsCanonical(s: State) {
    s.readThrough >= 0 && Ascending(s.seenAfter) && forall i :: 0 <= i < |s.seenAfter| ==> s.seenAfter[i] > s.readThrough
  }

  lemma CanonicalIsCanonical(s: State)
    ensures IsCanonical(Canonical(s)) && Mark(Canonical(s)) == Mark(s) && Seen(Canonical(s)) == Seen(s)
  {
    forall id ensures id in Seen(Canonical(s)) <==> id in Seen(s) {}
  }

  /** A canonical state is given by its mark and the ids it has seen. */
  lemma CanonicalIsDetermined(a: State, b: State)
    requires IsCanonical(a) && IsCanonical(b) && Mark(a) == Mark(b) && Seen(a) == Seen(b)
    ensures a == b
  {
    forall id ensures id in a.seenAfter <==> id in b.seenAfter {
      assert id in a.seenAfter ==> id in Seen(a) by { if id in a.seenAfter { var i :| 0 <= i < |a.seenAfter| && a.seenAfter[i] == id; } }
      assert id in b.seenAfter ==> id in Seen(b) by { if id in b.seenAfter { var i :| 0 <= i < |b.seenAfter| && b.seenAfter[i] == id; } }
    }
    AscendingUnique(a.seenAfter, b.seenAfter);
  }

  // ---- Moving the mark ----

  /** Two rows with one id are the same message. */
  ghost predicate Consistent(rows: seq<Row>) {
    forall i, j :: 0 <= i < |rows| && 0 <= j < |rows| && rows[i].id == rows[j].id ==> rows[i].author == rows[j].author
  }

  predicate Done(row: Row, viewer: UserId, seen: set<int>) { row.author == viewer || row.id in seen }

  /** Nothing unread lies between `lo` and `hi`. */
  ghost predicate DoneTo(rows: seq<Row>, viewer: UserId, seen: set<int>, lo: int, hi: int) {
    forall i :: 0 <= i < |rows| && lo < rows[i].id <= hi ==> Done(rows[i], viewer, seen)
  }

  ghost predicate IsRowId(rows: seq<Row>, id: int) { exists i :: 0 <= i < |rows| && rows[i].id == id }

  /** The furthest row the mark can move to without passing anything unread. */
  ghost predicate IsFurthest(rows: seq<Row>, viewer: UserId, seen: set<int>, mark: int, far: int) {
    && mark <= far && (far == mark || IsRowId(rows, far))
    && DoneTo(rows, viewer, seen, mark, far)
    && forall i :: 0 <= i < |rows| && rows[i].id > far ==> !DoneTo(rows, viewer, seen, mark, rows[i].id)
  }

  lemma FurthestIsUnique(rows: seq<Row>, viewer: UserId, seen: set<int>, mark: int, a: int, b: int)
    requires IsFurthest(rows, viewer, seen, mark, a) && IsFurthest(rows, viewer, seen, mark, b)
    ensures a == b
  {
    hide DoneTo;
  }

  // ---- Sorting the rows ----

  function InsertRow(row: Row, sorted: seq<Row>): seq<Row> {
    if sorted == [] || row.id <= sorted[0].id then [row] + sorted else [sorted[0]] + InsertRow(row, sorted[1..])
  }

  function SortRows(rows: seq<Row>): seq<Row> {
    if rows == [] then [] else InsertRow(rows[0], SortRows(rows[1..]))
  }

  ghost predicate ById(rows: seq<Row>) { forall i, j :: 0 <= i < j < |rows| ==> rows[i].id <= rows[j].id }

  ghost predicate Rising(rows: seq<Row>) { forall i, j :: 0 <= i < j < |rows| ==> rows[i].id < rows[j].id }

  lemma {:induction false} InsertedRow(row: Row, sorted: seq<Row>, x: Row)
    ensures x in InsertRow(row, sorted) <==> x == row || x in sorted
    decreases |sorted|
  {
    if sorted != [] && row.id > sorted[0].id {
      InsertedRow(row, sorted[1..], x);
      assert x in sorted <==> x == sorted[0] || x in sorted[1..];
    }
  }

  lemma {:induction false} InsertKeepsById(row: Row, sorted: seq<Row>)
    requires ById(sorted)
    ensures ById(InsertRow(row, sorted))
    decreases |sorted|
  {
    if sorted == [] || row.id <= sorted[0].id {
    } else {
      InsertKeepsById(row, sorted[1..]);
      var rest := InsertRow(row, sorted[1..]);
      forall i | 0 <= i < |rest| ensures sorted[0].id <= rest[i].id {
        InsertedRow(row, sorted[1..], rest[i]);
        assert rest[i] in rest;
      }
    }
  }

  lemma {:induction false} SortedRows(rows: seq<Row>)
    ensures ById(SortRows(rows)) && forall x :: x in SortRows(rows) <==> x in rows
    decreases |rows|
  {
    if rows != [] {
      SortedRows(rows[1..]);
      InsertKeepsById(rows[0], SortRows(rows[1..]));
      forall x ensures x in SortRows(rows) <==> x in rows {
        InsertedRow(rows[0], SortRows(rows[1..]), x);
        assert x in rows <==> x == rows[0] || x in rows[1..];
      }
    }
  }

  // ---- Collapsing ----

  /** The walk over the sorted rows: stop at the first one unread. */
  function Walk(sorted: seq<Row>, viewer: UserId, seen: set<int>, mark: int): int {
    if sorted == [] then mark
    else if sorted[0].id <= mark then Walk(sorted[1..], viewer, seen, mark)
    else if Done(sorted[0], viewer, seen) then Walk(sorted[1..], viewer, seen, sorted[0].id)
    else mark
  }

  lemma {:induction false} WalkIsFurthest(sorted: seq<Row>, viewer: UserId, seen: set<int>, mark: int)
    requires Rising(sorted)
    ensures IsFurthest(sorted, viewer, seen, mark, Walk(sorted, viewer, seen, mark))
    decreases |sorted|
  {
    if sorted != [] {
      var (first, rest) := (sorted[0], sorted[1..]);
      if first.id <= mark {
        WalkIsFurthest(rest, viewer, seen, mark);
        SkippedFirst(sorted, viewer, seen, mark, Walk(rest, viewer, seen, mark));
      } else if Done(first, viewer, seen) {
        WalkIsFurthest(rest, viewer, seen, first.id);
        PassedFirst(sorted, viewer, seen, mark, Walk(rest, viewer, seen, first.id));
      } else {
        forall i | 0 <= i < |sorted| && sorted[i].id > mark ensures !DoneTo(sorted, viewer, seen, mark, sorted[i].id) {
          assert first.id <= sorted[i].id;
        }
      }
    }
  }

  lemma DoneToCons(sorted: seq<Row>, viewer: UserId, seen: set<int>, lo: int, hi: int)
    requires sorted != []
    ensures DoneTo(sorted, viewer, seen, lo, hi) <==>
            DoneTo(sorted[1..], viewer, seen, lo, hi) && (lo < sorted[0].id <= hi ==> Done(sorted[0], viewer, seen))
  {
    if DoneTo(sorted, viewer, seen, lo, hi) {
      forall i | 0 <= i < |sorted[1..]| && lo < sorted[1..][i].id <= hi ensures Done(sorted[1..][i], viewer, seen) {
        assert sorted[1..][i] == sorted[i + 1];
      }
    }
    if DoneTo(sorted[1..], viewer, seen, lo, hi) && (lo < sorted[0].id <= hi ==> Done(sorted[0], viewer, seen)) {
      forall i | 0 <= i < |sorted| && lo < sorted[i].id <= hi ensures Done(sorted[i], viewer, seen) {
        if i > 0 { assert sorted[i] == sorted[1..][i - 1]; }
      }
    }
  }

  lemma RowIdCons(sorted: seq<Row>, id: int)
    requires sorted != [] && IsRowId(sorted[1..], id)
    ensures IsRowId(sorted, id)
  {
    var i :| 0 <= i < |sorted[1..]| && sorted[1..][i].id == id;
    assert sorted[i + 1].id == id;
  }

  lemma SkippedFirst(sorted: seq<Row>, viewer: UserId, seen: set<int>, mark: int, far: int)
    requires sorted != [] && sorted[0].id <= mark && IsFurthest(sorted[1..], viewer, seen, mark, far)
    ensures IsFurthest(sorted, viewer, seen, mark, far)
  {
    hide DoneTo, IsRowId;
    if far != mark { RowIdCons(sorted, far); }
    DoneToCons(sorted, viewer, seen, mark, far);
    forall i | 0 <= i < |sorted| && sorted[i].id > far ensures !DoneTo(sorted, viewer, seen, mark, sorted[i].id) {
      assert sorted[i] == sorted[1..][i - 1];
      DoneToCons(sorted, viewer, seen, mark, sorted[i].id);
    }
  }

  lemma PassedDone(sorted: seq<Row>, viewer: UserId, seen: set<int>, mark: int, hi: int)
    requires sorted != [] && Rising(sorted) && sorted[0].id > mark && Done(sorted[0], viewer, seen)
    ensures DoneTo(sorted, viewer, seen, mark, hi) <==> DoneTo(sorted[1..], viewer, seen, sorted[0].id, hi)
  {
    var rest := sorted[1..];
    if DoneTo(sorted, viewer, seen, mark, hi) {
      forall i | 0 <= i < |rest| && sorted[0].id < rest[i].id <= hi ensures Done(rest[i], viewer, seen) {
        assert rest[i] == sorted[i + 1];
      }
    }
    if DoneTo(rest, viewer, seen, sorted[0].id, hi) {
      forall i | 0 <= i < |sorted| && mark < sorted[i].id <= hi ensures Done(sorted[i], viewer, seen) {
        if i > 0 { assert sorted[i] == rest[i - 1]; }
      }
    }
  }

  lemma PassedFirst(sorted: seq<Row>, viewer: UserId, seen: set<int>, mark: int, far: int)
    requires sorted != [] && Rising(sorted) && sorted[0].id > mark && Done(sorted[0], viewer, seen)
    requires IsFurthest(sorted[1..], viewer, seen, sorted[0].id, far)
    ensures IsFurthest(sorted, viewer, seen, mark, far)
  {
    hide DoneTo, Done, Rising;
    if far == sorted[0].id { assert IsRowId(sorted, far); } else { RowIdCons(sorted, far); }
    PassedDone(sorted, viewer, seen, mark, far);
    forall i | 0 <= i < |sorted| && sorted[i].id > far ensures !DoneTo(sorted, viewer, seen, mark, sorted[i].id) {
      assert sorted[i] == sorted[1..][i - 1];
      PassedDone(sorted, viewer, seen, mark, sorted[i].id);
    }
  }

  // ---- The first row of each id decides ----

  /** Without the rows that repeat the id of the row before them. */
  function Heads(sorted: seq<Row>): seq<Row>
    decreases |sorted|
  {
    if |sorted| <= 1 then sorted
    else if sorted[0].id == sorted[1].id then Heads([sorted[0]] + sorted[2..])
    else [sorted[0]] + Heads(sorted[1..])
  }

  /** The first row under each id, by id. */
  function Leaders(rows: seq<Row>): seq<Row> { Heads(SortRows(rows)) }

  lemma {:induction false} HeadsRise(sorted: seq<Row>)
    requires ById(sorted)
    ensures Rising(Heads(sorted))
    ensures sorted != [] ==> Heads(sorted) != [] && Heads(sorted)[0] == sorted[0]
    decreases |sorted|
  {
    if |sorted| > 1 {
      if sorted[0].id == sorted[1].id {
        HeadsRise([sorted[0]] + sorted[2..]);
      } else {
        HeadsRise(sorted[1..]);
        assert sorted[0].id < sorted[1].id;
      }
    }
  }

  lemma {:induction false} WalkOverHeads(sorted: seq<Row>, viewer: UserId, seen: set<int>, mark: int)
    ensures Walk(Heads(sorted), viewer, seen, mark) == Walk(sorted, viewer, seen, mark)
    decreases |sorted|
  {
    if |sorted| > 1 {
      if sorted[0].id == sorted[1].id {
        var fewer := [sorted[0]] + sorted[2..];
        WalkOverHeads(fewer, viewer, seen, mark);
        assert fewer[1..] == sorted[2..] == sorted[1..][1..] && sorted[1..][0] == sorted[1];
      } else {
        var mid := if sorted[0].id <= mark then mark else sorted[0].id;
        WalkOverHeads(sorted[1..], viewer, seen, mid);
        assert Heads(sorted)[1..] == Heads(sorted[1..]);
      }
    }
  }

  function Far(rows: seq<Row>, viewer: UserId, seen: set<int>, mark: int): int { Walk(SortRows(rows), viewer, seen, mark) }

  /** The mark moves to the furthest first row with every first row up to it done. */
  lemma FarIsFurthest(rows: seq<Row>, viewer: UserId, seen: set<int>, mark: int)
    ensures IsFurthest(Leaders(rows), viewer, seen, mark, Far(rows, viewer, seen, mark))
  {
    hide IsFurthest, SortRows, Walk, Heads;
    SortedRows(rows);
    HeadsRise(SortRows(rows));
    WalkOverHeads(SortRows(rows), viewer, seen, mark);
    WalkIsFurthest(Leaders(rows), viewer, seen, mark);
  }

  /** The first row with this id. */
  function First(rows: seq<Row>, id: int): (r: Option<Row>)
    ensures r.Some? <==> exists row :: row in rows && row.id == id
  {
    if rows == [] then None else if rows[0].id == id then Some(rows[0]) else First(rows[1..], id)
  }

  lemma {:induction false} FirstAfterInsert(row: Row, sorted: seq<Row>, id: int)
    requires ById(sorted)
    ensures First(InsertRow(row, sorted), id) == if row.id == id then Some(row) else First(sorted, id)
    decreases |sorted|
  {
    if sorted == [] || row.id <= sorted[0].id {
      assert ([row] + sorted)[1..] == sorted;
    } else {
      var rest := InsertRow(row, sorted[1..]);
      assert ([sorted[0]] + rest)[1..] == rest;
      FirstAfterInsert(row, sorted[1..], id);
    }
  }

  /** Sorting keeps rows of one id in their order. */
  lemma {:induction false} FirstAfterSort(rows: seq<Row>, id: int)
    ensures First(SortRows(rows), id) == First(rows, id)
    decreases |rows|
  {
    if rows != [] {
      SortedRows(rows[1..]);
      FirstAfterInsert(rows[0], SortRows(rows[1..]), id);
      FirstAfterSort(rows[1..], id);
    }
  }

  /** The walk stops before an id whose first row is neither seen nor the viewer's. */
  lemma {:induction false} WalkStops(sorted: seq<Row>, viewer: UserId, seen: set<int>, mark: int, id: int)
    requires ById(sorted) && First(sorted, id).Some? && !Done(First(sorted, id).value, viewer, seen) && id > mark
    ensures Walk(sorted, viewer, seen, mark) < id
    decreases |sorted|
  {
    IdsFromFirst(sorted, id);
    if sorted[0].id < id {
      WalkStops(sorted[1..], viewer, seen, if sorted[0].id <= mark then mark else sorted[0].id, id);
    }
  }

  /** The walk passes the first id beyond the mark when its first row is done. */
  lemma {:induction false} WalkPasses(sorted: seq<Row>, viewer: UserId, seen: set<int>, id: int)
    requires ById(sorted) && First(sorted, id).Some? && Done(First(sorted, id).value, viewer, seen)
    ensures Walk(sorted, viewer, seen, id - 1) >= id
    decreases |sorted|
  {
    IdsFromFirst(sorted, id);
    if sorted[0].id < id {
      WalkPasses(sorted[1..], viewer, seen, id);
    } else {
      WalkGoesUp(sorted[1..], viewer, seen, id);
    }
  }

  lemma IdsFromFirst(sorted: seq<Row>, id: int)
    requires ById(sorted) && First(sorted, id).Some?
    ensures sorted != [] && sorted[0].id <= id
  {
    var row :| row in sorted && row.id == id;
    var i :| 0 <= i < |sorted| && sorted[i] == row;
  }

  /** The state with the mark moved as far as it goes. */
  function Collapsed(mark: int, seen: set<int>, rows: seq<Row>, viewer: UserId): State {
    var far := Far(rows, viewer, seen, mark);
    State(far, Sorted(Beyond(seen, far)))
  }

  function Collapse(s: State, rows: seq<Row>, viewer: UserId): State { Collapsed(Mark(s), Seen(s), rows, viewer) }

  method CollapseState(s: State, messages: seq<Row>, viewer: UserId) returns (next: State)
    ensures next == Collapse(s, messages, viewer)
  {
    hide Sorted, SortRows;
    next := Canonical(s);
    var seen := set id | id in next.seenAfter;
    SortedElements(Seen(s));
    var rows := SortRows(messages);
    for i := 0 to |rows|
      invariant Walk(rows[i..], viewer, seen, next.readThrough) == Walk(rows, viewer, seen, Mark(s))
    {
      if rows[i].id <= next.readThrough {
      } else if rows[i].author == viewer || rows[i].id in seen {
        next := next.(readThrough := rows[i].id);
      } else {
        break;
      }
    }
    assert rows[|rows|..] == [];
    next := next.(seenAfter := Sorted(Beyond(seen, next.readThrough)));
  }

  lemma SortedElements(ids: set<int>)
    ensures (set id | id in Sorted(ids)) == ids
  {
  }

  // ---- What is unread ----

  predicate IsUnread(s: State, row: Row, viewer: UserId) {
    row.author != viewer && row.id > Mark(s) && row.id !in Seen(s)
  }

  lemma CollapsedIs(mark: int, seen: set<int>, rows: seq<Row>, viewer: UserId)
    requires mark >= 0
    ensures var c := Collapsed(mark, seen, rows, viewer);
      Mark(c) == Far(rows, viewer, seen, mark) >= mark && Seen(c) == (Beyond(seen, Far(rows, viewer, seen, mark)))
      && IsCanonical(c)
  {
    hide SortRows;
    var far := Far(rows, viewer, seen, mark);
    WalkGoesUp(SortRows(rows), viewer, seen, mark);
    var c := Collapsed(mark, seen, rows, viewer);
    var kept := Beyond(seen, far);
    assert Same(c.seenAfter, kept) && c.readThrough == far;
    forall id ensures id in Seen(c) <==> id in kept {
      assert id in c.seenAfter <==> id in kept;
    }
  }

  lemma {:induction false} WalkGoesUp(sorted: seq<Row>, viewer: UserId, seen: set<int>, mark: int)
    ensures Walk(sorted, viewer, seen, mark) >= mark
    decreases |sorted|
  {
    if sorted != [] { WalkGoesUp(sorted[1..], viewer, seen, if sorted[0].id > mark then sorted[0].id else mark); }
  }

  /** Not behind a message of the viewer's own under the same id. */
  predicate Leads(rows: seq<Row>, viewer: UserId, row: Row)
    requires row in rows
  {
    row.author == viewer || row.id <= 0 || First(rows, row.id).value.author != viewer
  }

  /** One message per id is enough for that. */
  lemma OneMessagePerId(rows: seq<Row>, viewer: UserId, row: Row)
    requires Consistent(rows) && row in rows
    ensures Leads(rows, viewer, row)
  {
    FirstIsIn(rows, row.id);
    var i :| 0 <= i < |rows| && rows[i] == row;
    var j :| 0 <= j < |rows| && rows[j] == First(rows, row.id).value;
  }

  lemma {:induction false} FirstIsIn(rows: seq<Row>, id: int)
    ensures First(rows, id).Some? ==> First(rows, id).value in rows && First(rows, id).value.id == id
    decreases |rows|
  {
    if rows != [] { FirstIsIn(rows[1..], id); }
  }

  lemma CollapsedKeepsUnread(mark: int, seen: set<int>, rows: seq<Row>, viewer: UserId, row: Row)
    requires row in rows && Leads(rows, viewer, row) && mark >= 0
    ensures IsUnread(Collapsed(mark, seen, rows, viewer), row, viewer) <==> row.author != viewer && row.id > mark && row.id !in seen
  {
    hide Collapsed, SortRows;
    CollapsedIs(mark, seen, rows, viewer);
    if row.author != viewer && row.id > mark && row.id !in seen {
      SortedRows(rows);
      FirstIsIn(rows, row.id);
      FirstAfterSort(rows, row.id);
      WalkStops(SortRows(rows), viewer, seen, mark, row.id);
    }
  }

  /** Collapsing never changes what is unread. */
  lemma CollapseKeepsUnread(s: State, rows: seq<Row>, viewer: UserId, row: Row)
    requires row in rows && Leads(rows, viewer, row)
    ensures IsUnread(Collapse(s, rows, viewer), row, viewer) <==> IsUnread(s, row, viewer)
  {
    hide Collapsed, Leads;
    CollapsedKeepsUnread(Mark(s), Seen(s), rows, viewer, row);
  }

  /** Exactly then: a row behind the viewer's own message under its id is read by a
      collapse from the mark just below. */
  lemma KeptUnreadExactlyWhen(rows: seq<Row>, viewer: UserId, row: Row)
    requires row in rows
    ensures (forall s :: IsUnread(Collapse(s, rows, viewer), row, viewer) <==> IsUnread(s, row, viewer)) <==> Leads(rows, viewer, row)
  {
    hide Collapse, Leads;
    if Leads(rows, viewer, row) {
      forall s ensures IsUnread(Collapse(s, rows, viewer), row, viewer) <==> IsUnread(s, row, viewer) {
        CollapseKeepsUnread(s, rows, viewer, row);
      }
    } else {
      OvertakenIsRead(rows, viewer, row);
    }
  }

  lemma OvertakenIsRead(rows: seq<Row>, viewer: UserId, row: Row)
    requires row in rows && !Leads(rows, viewer, row)
    ensures var s := State(row.id - 1, []); IsUnread(s, row, viewer) && !IsUnread(Collapse(s, rows, viewer), row, viewer)
  {
    hide SortRows, Collapsed;
    var s := State(row.id - 1, []);
    assert Seen(s) == {};
    SortedRows(rows);
    FirstAfterSort(rows, row.id);
    WalkPasses(SortRows(rows), viewer, {}, row.id);
    CollapsedIs(Mark(s), {}, rows, viewer);
  }

  // ---- Merging ----

  /** Two tabs' states, as the source merges them. */
  function Merge(left: State, right: State, rows: seq<Row>, viewer: UserId): State {
    Collapse(State(Max(Mark(left), Mark(right)), Canonical(left).seenAfter + Canonical(right).seenAfter), rows, viewer)
  }

  /** A merge, in terms of the marks and what was seen. */
  lemma MergeIs(left: State, right: State, rows: seq<Row>, viewer: UserId)
    ensures var mark := Max(Mark(left), Mark(right));
      Merge(left, right, rows, viewer) == Collapsed(mark, Beyond(Seen(left) + Seen(right), mark), rows, viewer)
  {
    hide Collapsed;
    var mark := Max(Mark(left), Mark(right));
    var joined := State(mark, Canonical(left).seenAfter + Canonical(right).seenAfter);
    assert Seen(joined) == Beyond(Seen(left) + Seen(right), mark);
  }

  lemma MergeCommutes(left: State, right: State, rows: seq<Row>, viewer: UserId)
    ensures Merge(left, right, rows, viewer) == Merge(right, left, rows, viewer)
  {
    hide Merge, Collapsed, Seen;
    MergeIs(left, right, rows, viewer);
    MergeIs(right, left, rows, viewer);
    assert Seen(left) + Seen(right) == Seen(right) + Seen(left);
  }

  /** What is unread after a merge is what was unread on both sides. */
  lemma MergeReadsBoth(left: State, right: State, rows: seq<Row>, viewer: UserId, row: Row)
    requires row in rows && Leads(rows, viewer, row)
    ensures IsUnread(Merge(left, right, rows, viewer), row, viewer) <==> IsUnread(left, row, viewer) && IsUnread(right, row, viewer)
  {
    hide Collapse, Leads;
    var joined := State(Max(Mark(left), Mark(right)), Canonical(left).seenAfter + Canonical(right).seenAfter);
    CollapseKeepsUnread(joined, rows, viewer, row);
    assert Seen(joined) == Beyond(Seen(left) + Seen(right), Mark(joined));
  }

  ghost predicate IsCollapsed(s: State, rows: seq<Row>, viewer: UserId) {
    IsCanonical(s) && IsFurthest(Leaders(rows), viewer, Seen(s), Mark(s), Mark(s))
  }

  /** Whatever comes out of a collapse is collapsed. */
  lemma CollapsedStays(mark: int, seen: set<int>, rows: seq<Row>, viewer: UserId)
    requires mark >= 0
    ensures IsCollapsed(Collapsed(mark, seen, rows, viewer), rows, viewer)
  {
    hide Collapsed, Far, Leaders, Seen;
    var c := Collapsed(mark, seen, rows, viewer);
    CollapsedIs(mark, seen, rows, viewer);
    FarIsFurthest(rows, viewer, seen, mark);
    StillFurthest(Leaders(rows), viewer, seen, mark, Mark(c), Seen(c));
  }

  lemma StillDone(rows: seq<Row>, viewer: UserId, seen: set<int>, mark: int, far: int, hi: int)
    requires mark <= far && DoneTo(rows, viewer, seen, mark, far)
    ensures DoneTo(rows, viewer, seen, mark, hi) <==> DoneTo(rows, viewer, Beyond(seen, far), far, hi)
  {
    if DoneTo(rows, viewer, Beyond(seen, far), far, hi) {
      forall i | 0 <= i < |rows| && mark < rows[i].id <= hi ensures Done(rows[i], viewer, seen) {
        assert rows[i].id > far ==> Done(rows[i], viewer, Beyond(seen, far));
      }
    }
  }

  lemma StillFurthest(rows: seq<Row>, viewer: UserId, seen: set<int>, mark: int, far: int, left: set<int>)
    requires IsFurthest(rows, viewer, seen, mark, far) && left == Beyond(seen, far)
    ensures IsFurthest(rows, viewer, left, far, far)
  {
    hide IsRowId, DoneTo;
    StillDone(rows, viewer, seen, mark, far, far);
    forall i | 0 <= i < |rows| && rows[i].id > far ensures !DoneTo(rows, viewer, left, far, rows[i].id) {
      StillDone(rows, viewer, seen, mark, far, rows[i].id);
    }
  }

  /** Merging a collapsed state with itself changes nothing. */
  lemma MergeIsIdempotent(s: State, rows: seq<Row>, viewer: UserId)
    requires IsCollapsed(s, rows, viewer)
    ensures Merge(s, s, rows, viewer) == s
  {
    hide Collapsed, Merge, Far, Leaders, IsFurthest;
    MergeIs(s, s, rows, viewer);
    var seen := Beyond(Seen(s) + Seen(s), Mark(s));
    assert seen == Seen(s);
    CollapsedIs(Mark(s), Seen(s), rows, viewer);
    FarIsFurthest(rows, viewer, Seen(s), Mark(s));
    FurthestIsUnique(Leaders(rows), viewer, Seen(s), Mark(s), Mark(s), Far(rows, viewer, Seen(s), Mark(s)));
    assert Seen(s) == Beyond(Seen(s), Mark(s));
    CanonicalIsDetermined(Collapsed(Mark(s), Seen(s), rows, viewer), s);
  }

  /** Collapsing one side first does not change how far the mark goes. */
  lemma FurthestAbsorbs(rows: seq<Row>, viewer: UserId, xMark: int, xSeen: set<int>, far: int, yMark: int, ySeen: set<int>, all: int)
    requires IsFurthest(rows, viewer, xSeen, xMark, far)
    requires IsFurthest(rows, viewer, Beyond(xSeen + ySeen, Max(xMark, yMark)), Max(xMark, yMark), all)
    ensures all >= Max(far, yMark)
    ensures IsFurthest(rows, viewer, Beyond(xSeen + ySeen, Max(far, yMark)), Max(far, yMark), all)
  {
    hide IsRowId, DoneTo, Beyond;
    AtLeastMid(rows, viewer, xMark, xSeen, far, yMark, ySeen, all);
    SameFromMid(rows, viewer, xMark, xSeen, far, yMark, ySeen, all);
    forall i | 0 <= i < |rows| && rows[i].id > all
      ensures !DoneTo(rows, viewer, Beyond(xSeen + ySeen, Max(far, yMark)), Max(far, yMark), rows[i].id)
    {
      SameFromMid(rows, viewer, xMark, xSeen, far, yMark, ySeen, rows[i].id);
    }
  }

  lemma SameFromMid(rows: seq<Row>, viewer: UserId, xMark: int, xSeen: set<int>, far: int, yMark: int, ySeen: set<int>, hi: int)
    requires xMark <= far && DoneTo(rows, viewer, xSeen, xMark, far)
    ensures DoneTo(rows, viewer, Beyond(xSeen + ySeen, Max(xMark, yMark)), Max(xMark, yMark), hi)
       <==> DoneTo(rows, viewer, Beyond(xSeen + ySeen, Max(far, yMark)), Max(far, yMark), hi)
  {
    var low, mid := Max(xMark, yMark), Max(far, yMark);
    var lowSeen, midSeen := Beyond(xSeen + ySeen, low), Beyond(xSeen + ySeen, mid);
    if DoneTo(rows, viewer, lowSeen, low, hi) {
      forall i | 0 <= i < |rows| && mid < rows[i].id <= hi ensures Done(rows[i], viewer, midSeen) {}
    }
    if DoneTo(rows, viewer, midSeen, mid, hi) {
      forall i | 0 <= i < |rows| && low < rows[i].id <= hi ensures Done(rows[i], viewer, lowSeen) {
        assert rows[i].id <= mid ==> rows[i].id <= far;
        assert rows[i].id <= far ==> Done(rows[i], viewer, xSeen);
      }
    }
  }

  lemma AtLeastMid(rows: seq<Row>, viewer: UserId, xMark: int, xSeen: set<int>, far: int, yMark: int, ySeen: set<int>, all: int)
    requires IsFurthest(rows, viewer, xSeen, xMark, far)
    requires IsFurthest(rows, viewer, Beyond(xSeen + ySeen, Max(xMark, yMark)), Max(xMark, yMark), all)
    ensures all >= Max(far, yMark)
  {
    var low := Max(xMark, yMark);
    var lowSeen := Beyond(xSeen + ySeen, low);
    if far > low {
      var i :| 0 <= i < |rows| && rows[i].id == far;
      forall j | 0 <= j < |rows| && low < rows[j].id <= far ensures Done(rows[j], viewer, lowSeen) {
        assert Done(rows[j], viewer, xSeen);
      }
      assert DoneTo(rows, viewer, lowSeen, low, rows[i].id);
    }
  }

  /** Merging with a merge is merging all at once. */
  lemma MergeAbsorbs(a: State, b: State, c: State, rows: seq<Row>, viewer: UserId)
    ensures var mark := Max(Max(Mark(a), Mark(b)), Mark(c));
      Merge(Merge(a, b, rows, viewer), c, rows, viewer)
      == Collapsed(mark, Beyond(Seen(a) + Seen(b) + Seen(c), mark), rows, viewer)
  {
    hide Collapsed, Merge, Far, Leaders, IsFurthest, Seen;
    var ab := Max(Mark(a), Mark(b));
    var abSeen := Beyond(Seen(a) + Seen(b), ab);
    var m := Merge(a, b, rows, viewer);
    MergeIs(a, b, rows, viewer);
    MergeIs(m, c, rows, viewer);
    CollapsedIs(ab, abSeen, rows, viewer);
    FarIsFurthest(rows, viewer, abSeen, ab);
    var mark := Max(ab, Mark(c));
    var all := Beyond(Seen(a) + Seen(b) + Seen(c), mark);
    assert all == Beyond(abSeen + Seen(c), mark);
    FarIsFurthest(rows, viewer, all, mark);
    FurthestAbsorbs(Leaders(rows), viewer, ab, abSeen, Mark(m), Mark(c), Seen(c), Far(rows, viewer, all, mark));
    var mid := Max(Mark(m), Mark(c));
    var midSeen := Beyond(Seen(m) + Seen(c), mid);
    assert midSeen == Beyond(abSeen + Seen(c), mid);
    FarIsFurthest(rows, viewer, midSeen, mid);
    FurthestIsUnique(Leaders(rows), viewer, midSeen, mid, Far(rows, viewer, all, mark), Far(rows, viewer, midSeen, mid));
    SameCollapse(mid, midSeen, mark, all, rows, viewer);
  }

  lemma SameCollapse(mid: int, midSeen: set<int>, mark: int, all: set<int>, rows: seq<Row>, viewer: UserId)
    requires Far(rows, viewer, midSeen, mid) == Far(rows, viewer, all, mark) >= mid >= mark
    requires midSeen == Beyond(all, mid)
    ensures Collapsed(mid, midSeen, rows, viewer) == Collapsed(mark, all, rows, viewer)
  {
    hide Far;
    var far := Far(rows, viewer, all, mark);
    assert (Beyond(midSeen, far)) == (Beyond(all, far));
  }

  lemma MergeAssociates(a: State, b: State, c: State, rows: seq<Row>, viewer: UserId)
    ensures Merge(Merge(a, b, rows, viewer), c, rows, viewer) == Merge(a, Merge(b, c, rows, viewer), rows, viewer)
  {
    hide Collapsed, Merge, Seen;
    MergeAbsorbs(a, b, c, rows, viewer);
    MergeAbsorbs(b, c, a, rows, viewer);
    MergeCommutes(a, Merge(b, c, rows, viewer), rows, viewer);
    assert Seen(a) + Seen(b) + Seen(c) == Seen(b) + Seen(c) + Seen(a);
  }

  // ---- Reading ----

  /** Seeing some rows reads exactly those, however far the mark then moves. */
  method MarkVisible(s: State, messages: seq<Row>, viewer: UserId, visible: seq<int>) returns (next: State)
    ensures next == Collapse(State(Mark(s), Canonical(s).seenAfter + Shown(visible, Mark(s))), messages, viewer)
  {
    hide Collapse, Sorted, Shown, Seen, Mark;
    next := Canonical(s);
    ghost var before := next.seenAfter;
    NoneShown(Mark(s));
    assert before + [] == before;
    for i := 0 to |visible|
      invariant next.readThrough == Mark(s) && next.seenAfter == before + Shown(visible[..i], Mark(s))
    {
      ShownSnoc(visible[..i], visible[i], Mark(s));
      assert visible[..i + 1] == visible[..i] + [visible[i]];
      if ValidId(visible[i]) && visible[i] > next.readThrough {
        next := next.(seenAfter := next.seenAfter + [visible[i]]);
      }
    }
    assert visible[..|visible|] == visible;
    next := CollapseState(next, messages, viewer);
  }

  /** The visible ids that are beyond the mark. */
  function Shown(visible: seq<int>, mark: int): (shown: seq<int>)
    ensures forall id :: id in shown <==> id in visible && ValidId(id) && id > mark
  {
    if visible == [] then []
    else
      var last := visible[|visible| - 1];
      assert visible == visible[..|visible| - 1] + [last];
      Shown(visible[..|visible| - 1], mark) + (if ValidId(last) && last > mark then [last] else [])
  }

  lemma NoneShown(mark: int)
    ensures Shown([], mark) == []
  {
  }

  lemma ShownSnoc(visible: seq<int>, id: int, mark: int)
    ensures Shown(visible + [id], mark) == Shown(visible, mark) + if ValidId(id) && id > mark then [id] else []
  {
    assert (visible + [id])[..|visible|] == visible;
  }

  lemma SeeingReads(s: State, rows: seq<Row>, viewer: UserId, visible: seq<int>, row: Row)
    requires row in rows && Leads(rows, viewer, row)
    ensures IsUnread(Collapse(State(Mark(s), Canonical(s).seenAfter + Shown(visible, Mark(s))), rows, viewer), row, viewer)
       <==> IsUnread(s, row, viewer) && row.id !in visible
  {
    hide Collapse, Leads;
    var seen := State(Mark(s), Canonical(s).seenAfter + Shown(visible, Mark(s)));
    CollapseKeepsUnread(seen, rows, viewer, row);
    forall id ensures id in Seen(seen) <==> id in Seen(s) || (id in visible && ValidId(id) && id > Mark(s)) {}
  }

  method MarkThrough(s: State, latestId: int) returns (next: State)
    ensures next == State(Max(Mark(s), latestId), Sorted(Beyond(Seen(s), Max(Mark(s), latestId))))
  {
    next := Canonical(s);
    if ValidId(latestId) && latestId > next.readThrough { next := next.(readThrough := latestId); }
    next := next.(seenAfter := Filtered(next.seenAfter, next.readThrough, Seen(s)));
  }

  /** An ascending list without what the mark has passed. */
  function Filtered(ids: seq<int>, mark: int, ghost all: set<int>): (kept: seq<int>)
    requires Ascending(ids) && Same(ids, all)
    ensures kept == Sorted(Beyond(all, mark))
  {
    var kept := KeepBeyond(ids, mark);
    KeptAscend(ids, mark);
    assert forall id :: id in kept <==> id in Sorted(Beyond(all, mark)) by {
      forall id ensures id in kept <==> id in Beyond(all, mark) { KeptAre(ids, mark, id); }
    }
    AscendingUnique(kept, Sorted(Beyond(all, mark)));
    kept
  }

  function KeepBeyond(ids: seq<int>, mark: int): seq<int> {
    if ids == [] then []
    else if ids[0] > mark then [ids[0]] + KeepBeyond(ids[1..], mark)
    else KeepBeyond(ids[1..], mark)
  }

  lemma {:induction false} KeptAre(ids: seq<int>, mark: int, id: int)
    ensures id in KeepBeyond(ids, mark) <==> id in ids && id > mark
    decreases |ids|
  {
    if ids != [] {
      KeptAre(ids[1..], mark, id);
      assert id in ids <==> id == ids[0] || id in ids[1..];
    }
  }

  lemma {:induction false} KeptAscend(ids: seq<int>, mark: int)
    requires Ascending(ids)
    ensures Ascending(KeepBeyond(ids, mark))
    decreases |ids|
  {
    if ids != [] {
      KeptAscend(ids[1..], mark);
      var rest := KeepBeyond(ids[1..], mark);
      forall i | 0 <= i < |rest| ensures rest[i] > ids[0] {
        assert rest[i] in rest;
        KeptAre(ids[1..], mark, rest[i]);
        var j :| 0 <= j < |ids[1..]| && ids[1..][j] == rest[i];
        assert ids[j + 1] == rest[i];
      }
    }
  }

  /** Marking through an id reads everything up to it and nothing else. */
  lemma MarkingThroughReads(s: State, latestId: int, row: Row, viewer: UserId)
    ensures IsUnread(State(Max(Mark(s), latestId), Sorted(Beyond(Seen(s), Max(Mark(s), latestId)))), row, viewer)
       <==> IsUnread(s, row, viewer) && row.id > latestId
  {
    var mark := Max(Mark(s), latestId);
    var next := State(mark, Sorted(Beyond(Seen(s), mark)));
    forall id ensures id in Seen(next) <==> id in Seen(s) && id > mark {}
  }

  // ---- Retention ----

  function Between(ids: set<int>, oldest: int, latest: int): set<int> { set id | id in ids && oldest <= id <= latest }

  /** The state moved to what the server still keeps. */
  function Rebased(s: State, rows: seq<Row>, viewer: UserId, oldest: int, latest: int): State {
    if rows == [] || !ValidId(latest) || latest <= 0 then State(0, [])
    else
      var from := if ValidId(oldest) then oldest else 0;
      if Mark(s) > latest then State(latest, [])
      else
        var mark := if Mark(s) < from then Max(0, from - 1) else Mark(s);
        Collapsed(mark, Beyond(Between(Seen(s), from, latest), mark), rows, viewer)
  }

  method RebaseRetainedState(s: State, messages: seq<Row>, viewer: UserId, oldestRetainedId: int, latestId: int) returns (next: State)
    ensures next == Rebased(s, messages, viewer, oldestRetainedId, latestId)
  {
    hide Collapsed, Sorted;
    if |messages| == 0 || !ValidId(latestId) || latestId <= 0 { return State(0, []); }
    var oldest := if ValidId(oldestRetainedId) then oldestRetainedId else 0;
    next := Canonical(s);
    if next.readThrough > latestId { return State(latestId, []); }
    if next.readThrough < oldest { next := next.(readThrough := Max(0, oldest - 1)); }
    var kept := set id | id in next.seenAfter && oldest <= id <= latestId;
    next := next.(seenAfter := Sorted(kept));
    RebasedSeen(s, next, oldest, latestId, kept);
    next := CollapseState(next, messages, viewer);
  }

  lemma RebasedSeen(s: State, next: State, oldest: int, latest: int, kept: set<int>)
    requires kept == (set id | id in Canonical(s).seenAfter && oldest <= id <= latest) && next.seenAfter == Sorted(kept)
    requires next.readThrough >= Mark(s)
    ensures Seen(next) == Beyond(Between(Seen(s), oldest, latest), next.readThrough) && Mark(next) == next.readThrough
  {
    forall id ensures id in Seen(next) <==> id in Beyond(Between(Seen(s), oldest, latest), next.readThrough) {}
  }

  /** Rebasing keeps what is unread among the messages that are kept, whatever else
      the list still holds. */
  lemma RebaseKeepsUnread(s: State, rows: seq<Row>, viewer: UserId, oldest: int, latest: int, row: Row)
    requires row in rows && Leads(rows, viewer, row) && Max(0, oldest) <= row.id <= latest
    ensures IsUnread(Rebased(s, rows, viewer, oldest, latest), row, viewer) <==> IsUnread(s, row, viewer)
  {
    hide Collapsed, Leads;
    if ValidId(latest) && latest > 0 && Mark(s) <= latest {
      var from := if ValidId(oldest) then oldest else 0;
      var mark := if Mark(s) < from then Max(0, from - 1) else Mark(s);
      var seen := Beyond(Between(Seen(s), from, latest), mark);
      CollapsedKeepsUnread(mark, seen, rows, viewer, row);
    }
  }

  // ---- The summary ----

  datatype Summary = Summary(ids: seq<int>, count: nat, mentioned: bool)

  function UnreadRows(s: State, rows: seq<Row>, viewer: UserId): (unread: seq<Row>)
    ensures forall row :: row in unread <==> row in rows && IsUnread(s, row, viewer)
  {
    if rows == [] then []
    else
      var last := rows[|rows| - 1];
      assert rows == rows[..|rows| - 1] + [last];
      UnreadRows(s, rows[..|rows| - 1], viewer) + (if IsUnread(s, last, viewer) then [last] else [])
  }

  lemma {:induction false} UnreadRowsById(s: State, rows: seq<Row>, viewer: UserId)
    requires ById(rows)
    ensures ById(UnreadRows(s, rows, viewer))
    decreases |rows|
  {
    if rows != [] {
      var (init, last) := (rows[..|rows| - 1], rows[|rows| - 1]);
      UnreadRowsById(s, init, viewer);
      var unread := UnreadRows(s, init, viewer);
      forall i | 0 <= i < |unread| ensures unread[i].id <= last.id { assert unread[i] in unread && unread[i] in init; }
    }
  }

  function IdsOf(rows: seq<Row>): (ids: seq<int>)
    ensures |ids| == |rows| && forall i :: 0 <= i < |ids| ==> ids[i] == rows[i].id
  {
    seq(|rows|, i requires 0 <= i < |rows| => rows[i].id)
  }

  ghost predicate Ordered(ids: seq<int>) { forall i, j :: 0 <= i < j < |ids| ==> ids[i] <= ids[j] }

  lemma IdsOfUnread(s: State, messages: seq<Row>, viewer: UserId)
    ensures var ids := IdsOf(UnreadRows(s, SortRows(messages), viewer));
            Ordered(ids) && forall id :: id in ids <==> exists row :: row in messages && row.id == id && IsUnread(s, row, viewer)
  {
    hide SortRows, UnreadRows, IsUnread;
    SortedRows(messages);
    var unread := UnreadRows(s, SortRows(messages), viewer);
    UnreadRowsById(s, SortRows(messages), viewer);
    forall id ensures id in IdsOf(unread) <==> exists row :: row in messages && row.id == id && IsUnread(s, row, viewer) {
      if id in IdsOf(unread) {
        var i :| 0 <= i < |unread| && IdsOf(unread)[i] == id;
        assert unread[i] in unread;
      }
      forall row | row in unread && row.id == id ensures id in IdsOf(unread) {
        var i :| 0 <= i < |unread| && unread[i] == row;
        assert IdsOf(unread)[i] == id;
      }
    }
  }

  /** The unread rows in the order of their ids, how many they are, and whether
      one of them mentions the viewer. */
  method UnreadSummary(s: State, messages: seq<Row>, viewer: UserId) returns (summary: Summary)
    ensures var unread := UnreadRows(s, SortRows(messages), viewer);
            && summary.ids == IdsOf(unread) && summary.count == |unread|
            && (summary.mentioned <==> exists row :: row in unread && viewer in row.mentioned)
    ensures Ordered(summary.ids) && forall id :: id in summary.ids <==> exists row :: row in messages && row.id == id && IsUnread(s, row, viewer)
  {
    hide SortRows, UnreadRows, ById;
    var next := Canonical(s);
    CanonicalIsCanonical(s);
    var rows := SortRows(messages);
    SortedRows(messages);
    var list: seq<Row> := [];
    NothingUnread(s, viewer);
    for i := 0 to |rows|
      invariant list == UnreadRows(s, rows[..i], viewer)
    {
      var row := rows[i];
      UnreadSnoc(s, rows[..i], row, viewer);
      assert rows[..i + 1] == rows[..i] + [row];
      SeenAfterIsSeen(s, row.id);
      if row.author != viewer && row.id > next.readThrough && row.id !in next.seenAfter { list := list + [row]; }
    }
    assert rows[..|rows|] == rows;
    IdsOfUnread(s, messages, viewer);
    return Summary(IdsOf(list), |list|, exists row :: row in list && viewer in row.mentioned);
  }

  lemma NothingUnread(s: State, viewer: UserId)
    ensures UnreadRows(s, [], viewer) == []
  {
  }

  lemma UnreadSnoc(s: State, rows: seq<Row>, row: Row, viewer: UserId)
    ensures UnreadRows(s, rows + [row], viewer) == UnreadRows(s, rows, viewer) + if IsUnread(s, row, viewer) then [row] else []
  {
    assert (rows + [row])[..|rows|] == rows;
  }

  lemma SeenAfterIsSeen(s: State, id: int)
    ensures id in Canonical(s).seenAfter <==> id in Seen(s)
  {
  }
}
