/** Read states kept in the browser's storage, one record per conversation and
    an index of when each was touched (apps/client/src/chat/read-store.ts). */
module ReadStore {
  import opened Wrappers
  import opened Bounds
  import opened Slices
  import opened Sorting
  import opened ReadState

  datatype Key = Global | Game(id: nat)

  /** A stored record, or something that does not parse as one. */
  datatype Record = Garbage | Record(readThrough: int, seenAfter: seq<int>, touchedAt: int)

  type Index = map<Key, nat>

  /** One user's part of the storage. */
  datatype Storage = Storage(records: map<Key, Record>, index: Option<Index>)

  const MAX_GAME_RECORDS: nat := 100

  // ---- Reading a record back ----

  /** A record is read back only if all of it makes sense. */
  function Parsed(r: Record): Option<State> {
    if r.Record? && ValidId(r.readThrough) && ValidId(r.touchedAt)
       && forall id :: id in r.seenAfter ==> ValidId(id) && id > r.readThrough
    then Some(State(r.readThrough, Sorted(set id | id in r.seenAfter))) else None
  }

  function Loaded(st: Storage, key: Key): Option<State> {
    if key in st.records then Parsed(st.records[key]) else None
  }

  // ---- Pruning ----

  function Games(index: Index): set<Key> { set k | k in index && k.Game? }

  predicate Older(index: Index, a: Key, b: Key)
    requires a in index && b in index
  {
    index[a] < index[b] || (index[a] == index[b] && a.Game? && b.Game? && a.id < b.id)
  }

  predicate IsOldest(index: Index, games: set<Key>, k: Key)
    requires games <= index.Keys
  {
    k in games && forall other :: other in games && other != k ==> Older(index, k, other)
  }

  lemma {:induction false} HasOldest(index: Index, games: set<Key>)
    requires games <= Games(index) && games != {}
    ensures exists k :: IsOldest(index, games, k)
    decreases |games|
  {
    var a :| a in games;
    var rest := games - {a};
    if rest == {} {
      assert games == {a};
      assert IsOldest(index, games, a);
    } else {
      HasOldest(index, rest);
      var b :| IsOldest(index, rest, b);
      assert a in Games(index) && b in Games(index);
      if Older(index, a, b) {
        forall other | other in games && other != a ensures Older(index, a, other) {
          assert other in Games(index) && other in rest;
        }
        assert IsOldest(index, games, a);
      } else {
        assert IsOldest(index, games, b);
      }
    }
  }

  function OldestGame(index: Index): (k: Key)
    requires Games(index) != {}
    ensures IsOldest(index, Games(index), k)
  {
    HasOldest(index, Games(index));
    var k :| IsOldest(index, Games(index), k);
    k
  }

  function Evicted(st: Storage, k: Key): Storage {
    Storage(st.records - {k}, if st.index.Some? then Some(st.index.value - {k}) else None)
  }

  /** The game touched longest ago goes first, until a hundred are left. */
  function Pruned(st: Storage): (r: Storage)
    decreases if st.index.Some? then |Games(st.index.value)| else 0
  {
    if st.index.None? || |Games(st.index.value)| <= MAX_GAME_RECORDS then st
    else
      var k := OldestGame(st.index.value);
      assert Games(st.index.value - {k}) == Games(st.index.value) - {k};
      Pruned(Evicted(st, k))
  }

  lemma {:induction false} PruneEvictsTheOldest(st: Storage, evicted: Key, kept: Key)
    requires st.index.Some?
    ensures Pruned(st).index.Some? && Pruned(st).index.value.Keys <= st.index.value.Keys
    ensures forall k :: k in Pruned(st).index.value ==> Pruned(st).index.value[k] == st.index.value[k]
    ensures |Games(Pruned(st).index.value)| == if |Games(st.index.value)| <= MAX_GAME_RECORDS then |Games(st.index.value)| else MAX_GAME_RECORDS
    ensures Global in st.index.value ==> Global in Pruned(st).index.value
    ensures evicted in st.index.value && evicted !in Pruned(st).index.value && kept in Games(Pruned(st).index.value) ==>
              Older(st.index.value, evicted, kept)
    decreases |Games(st.index.value)|
  {
    var index := st.index.value;
    if |Games(index)| > MAX_GAME_RECORDS {
      var k := OldestGame(index);
      var next := Evicted(st, k);
      assert Games(next.index.value) == Games(index) - {k};
      PruneEvictsTheOldest(next, evicted, kept);
    }
  }

  /** Records go exactly when their index entries do. */
  lemma {:induction false} PruneKeepsRecords(st: Storage, key: Key)
    ensures key in Pruned(st).records ==> key in st.records && Pruned(st).records[key] == st.records[key]
    ensures st.index.Some? && key in st.records ==>
              (key in Pruned(st).records <==> !(key in st.index.value && Pruned(st).index.Some? && key !in Pruned(st).index.value))
    ensures st.index.None? ==> Pruned(st) == st
    ensures st.index.Some? ==> Pruned(st).index.Some? && Pruned(st).index.value.Keys <= st.index.value.Keys
    decreases if st.index.Some? then |Games(st.index.value)| else 0
  {
    if st.index.Some? && |Games(st.index.value)| > MAX_GAME_RECORDS {
      var k := OldestGame(st.index.value);
      assert Games(st.index.value - {k}) == Games(st.index.value) - {k};
      PruneKeepsRecords(Evicted(st, k), key);
    }
  }

  /** The newest game is never the one to go. */
  lemma NewestIsKept(st: Storage, key: Key)
    requires st.index.Some? && key in st.index.value
    requires forall k :: k in Games(st.index.value) && k != key ==> Older(st.index.value, k, key)
    ensures Pruned(st).index.Some? && key in Pruned(st).index.value
  {
    hide Pruned;
    PruneEvictsTheOldest(st, key, key);
    if key.Game? {
      var left := Games(Pruned(st).index.value);
      assert key in Games(st.index.value);
      assert |left| >= 1;
      var k :| k in left;
      assert k in Games(st.index.value);
      PruneEvictsTheOldest(st, key, k);
    }
  }

  /** The games touched after this one. */
  function Younger(index: Index, key: Key): set<Key>
    requires key in index
  {
    set k | k in Games(index) && k != key && Older(index, key, k)
  }

  /** A game stays exactly when fewer than a hundred are younger. */
  lemma {:induction false} KeptExactlyWhen(st: Storage, key: Key)
    requires st.index.Some? && key in Games(st.index.value)
    ensures Pruned(st).index.Some?
    ensures key in Pruned(st).index.value <==> |Younger(st.index.value, key)| < MAX_GAME_RECORDS
    decreases |Games(st.index.value)|
  {
    hide Older;
    var index := st.index.value;
    var games := Games(index);
    var younger := Younger(index, key);
    if |games| <= MAX_GAME_RECORDS {
      Fewer(younger, games - {key});
    } else {
      var k := OldestGame(index);
      var next := Evicted(st, k);
      assert Games(next.index.value) == games - {k};
      if k == key {
        assert younger == games - {key};
        PruneEvictsTheOldest(next, key, key);
      } else {
        OldestIsNotYounger(index, key, k);
        SameOrder(index, k);
        assert Younger(next.index.value, key) == younger;
        KeptExactlyWhen(next, key);
      }
    }
  }

  lemma Fewer(a: set<Key>, b: set<Key>)
    requires a <= b
    ensures |a| <= |b|
  {
    assert b == a + (b - a);
  }

  lemma OldestIsNotYounger(index: Index, key: Key, k: Key)
    requires key in Games(index) && k in Games(index) && k != key && Older(index, k, key)
    ensures k !in Younger(index, key)
  {
  }

  lemma SameOrder(index: Index, k: Key)
    ensures forall a, b :: a in index - {k} && b in index - {k} ==> (Older(index - {k}, a, b) <==> Older(index, a, b))
  {
  }

  // ---- Saving ----

  function Valid(id: int): int { if ValidId(id) then id else 0 }

  /** The record a save writes: what was there and what is new, together. */
  function SavedRecord(existing: Option<State>, s: State, now: nat): Record {
    var mark := Max(if existing.Some? then existing.value.readThrough else 0, Valid(s.readThrough));
    var before := if existing.Some? then existing.value.seenAfter else [];
    Record(mark, Sorted(set id | id in s.seenAfter + before && ValidId(id) && id > mark), now)
  }

  function Saved(st: Storage, key: Key, s: State, now: nat): Storage {
    var index := if st.index.Some? then st.index.value else map[];
    Pruned(Storage(st.records[key := SavedRecord(Loaded(st, key), s, now)], Some(index[key := now])))
  }

  /** Everything a state has read. */
  predicate HasRead(s: State, id: int) { 0 <= id <= s.readThrough || (ValidId(id) && id in s.seenAfter) }

  /** The record a save writes reads back as what had been stored and what was saved,
      joined, and nothing else. */
  lemma WrittenJoins(existing: Option<State>, s: State, now: nat, id: int)
    requires id >= 0
    ensures Parsed(SavedRecord(existing, s, now)).Some?
    ensures HasRead(Parsed(SavedRecord(existing, s, now)).value, id)
       <==> (existing.Some? && HasRead(existing.value, id)) || HasRead(State(Valid(s.readThrough), s.seenAfter), id)
  {
    var r := SavedRecord(existing, s, now);
    forall x | x in r.seenAfter ensures ValidId(x) && x > r.readThrough {}
    assert id in Parsed(r).value.seenAfter <==> id in r.seenAfter;
  }

  function Touched(st: Storage, key: Key, now: nat): Index { (if st.index.Some? then st.index.value else map[])[key := now] }

  /** What is read back after a save. A game with a hundred younger ones in the index
      is pruned by the very save; otherwise what had been stored and what was saved
      are both there, and nothing else, so no tab unreads what another has read. */
  lemma SaveJoins(st: Storage, key: Key, s: State, now: nat, id: int)
    requires id >= 0
    ensures var after := Loaded(Saved(st, key, s, now), key);
            && (after.None? <==> key.Game? && |Younger(Touched(st, key, now), key)| >= MAX_GAME_RECORDS)
            && (after.Some? ==>
                  (HasRead(after.value, id) <==>
                     (Loaded(st, key).Some? && HasRead(Loaded(st, key).value, id)) || HasRead(State(Valid(s.readThrough), s.seenAfter), id)))
  {
    hide Parsed, SavedRecord, HasRead, Pruned, Younger;
    var written := SavedRecord(Loaded(st, key), s, now);
    var unpruned := Storage(st.records[key := written], Some(Touched(st, key, now)));
    WrittenJoins(Loaded(st, key), s, now, id);
    PruneKeepsRecords(unpruned, key);
    PruneEvictsTheOldest(unpruned, key, key);
    if key.Game? { KeptExactlyWhen(unpruned, key); }
  }

  function GamesBelow(n: nat): set<Key> { set i: nat | i < n :: Game(i) }

  lemma {:induction false} SomeGames(n: nat)
    ensures |GamesBelow(n)| == n
    decreases n
  {
    if n > 0 {
      SomeGames(n - 1);
      assert GamesBelow(n) == GamesBelow(n - 1) + {Game(n - 1)};
    }
  }

  /** A clock set back does it: a hundred games touched at time 1, another saved at time 0. */
  lemma SavedByAnEarlierClock(s: State)
    ensures var st := Storage(map[], Some(map k | k in GamesBelow(MAX_GAME_RECORDS) :: 1));
            Loaded(Saved(st, Game(MAX_GAME_RECORDS), s, 0), Game(MAX_GAME_RECORDS)).None?
  {
    hide Saved, Loaded;
    var key := Game(MAX_GAME_RECORDS);
    var st := Storage(map[], Some(map k | k in GamesBelow(MAX_GAME_RECORDS) :: 1));
    SomeGames(MAX_GAME_RECORDS);
    assert Younger(Touched(st, key, 0), key) == GamesBelow(MAX_GAME_RECORDS);
    SaveJoins(st, key, s, 0, 0);
  }

  // ---- The store, in place ----

  class ReadStore {
    var records: map<Key, Record>
    var index: Option<Index>

    function View(): Storage
      reads this
    {
      Storage(records, index)
    }

    constructor ()
      ensures View() == Storage(map[], None)
    {
      records, index := map[], None;
    }

    /** Sorts the games by age and drops from the front. */
    method Prune()
      modifies this
      ensures View() == Pruned(old(View()))
    {
      if index.None? { return; }
      var games := GamesByAge(index.value);
      while |games| > MAX_GAME_RECORDS
        invariant index.Some? && ByAge(index.value, games)
        invariant Pruned(View()) == Pruned(old(View()))
        decreases |games|
      {
        FirstIsOldest(index.value, games);
        var k := games[0];
        DropFirst(index.value, games);
        games := games[1..];
        records := records - {k};
        index := Some(index.value - {k});
      }
      AllListed(index.value, games);
    }

    method Load(key: Key) returns (state: Option<State>)
      modifies this
      ensures View() == Pruned(old(View())) && state == Loaded(View(), key)
    {
      Prune();
      state := if key in records then Parsed(records[key]) else None;
    }

    method Save(key: Key, s: State, now: nat)
      modifies this
      ensures View() == Saved(old(View()), key, s, now)
    {
      var existing := if key in records then Parsed(records[key]) else None;
      records := records[key := SavedRecord(existing, s, now)];
      var current := if index.Some? then index.value else map[];
      index := Some(current[key := now]);
      Prune();
    }

    /** What is in memory, merged with what another tab may have stored. */
    method MergeStored(key: Key, current: State, messages: seq<Row>, viewer: ReadState.UserId) returns (merged: State)
      modifies this
      ensures View() == Pruned(old(View()))
      ensures merged == if Loaded(View(), key).Some? then Merge(current, Loaded(View(), key).value, messages, viewer) else current
    {
      hide Merge, Pruned;
      var stored := Load(key);
      merged := if stored.Some? then Merge(current, stored.value, messages, viewer) else current;
    }
  }

  // ---- Sorting the games by age ----

  /** Exactly the games of the index, the oldest first. */
  ghost predicate ByAge(index: Index, games: seq<Key>) {
    && (forall k :: k in games <==> k in Games(index))
    && Distinct(games)
    && forall i, j :: 0 <= i < j < |games| ==> games[i] in index && games[j] in index && Older(index, games[i], games[j])
  }

  function InsertByAge(index: Index, k: Key, games: seq<Key>): seq<Key>
    requires k in index && forall g :: g in games ==> g in index
  {
    if games == [] || Older(index, k, games[0]) then [k] + games else [games[0]] + InsertByAge(index, k, games[1..])
  }

  ghost predicate Aged(index: Index, games: seq<Key>) {
    && (forall i :: 0 <= i < |games| ==> games[i] in index && games[i].Game?)
    && forall i, j :: 0 <= i < j < |games| ==> Older(index, games[i], games[j])
  }

  lemma {:induction false} InsertKeepsAge(index: Index, k: Key, games: seq<Key>)
    requires k in index && k.Game? && k !in games && Aged(index, games) && forall g :: g in games ==> g in index
    ensures forall x :: x in InsertByAge(index, k, games) <==> x == k || x in games
    ensures Aged(index, InsertByAge(index, k, games))
    decreases |games|
  {
    if games == [] || Older(index, k, games[0]) {
    } else {
      InsertKeepsAge(index, k, games[1..]);
      var rest := InsertByAge(index, k, games[1..]);
      assert forall x :: x in games <==> x == games[0] || x in games[1..];
      forall i | 0 <= i < |rest| ensures rest[i] in index && Older(index, games[0], rest[i]) {
        assert rest[i] in rest;
      }
    }
  }

  method GamesByAge(index: Index) returns (games: seq<Key>)
    ensures ByAge(index, games)
  {
    games := [];
    var left := Games(index);
    while left != {}
      invariant left <= Games(index) && Aged(index, games)
      invariant forall k :: k in games <==> k in Games(index) && k !in left
      decreases |left|
    {
      var k :| k in left;
      InsertKeepsAge(index, k, games);
      games := InsertByAge(index, k, games);
      left := left - {k};
    }
    AgedIsDistinct(index, games);
  }

  lemma AgedIsDistinct(index: Index, games: seq<Key>)
    requires Aged(index, games)
    ensures Distinct(games)
  {
  }

  lemma FirstIsOldest(index: Index, games: seq<Key>)
    requires ByAge(index, games) && games != []
    ensures games[0] in Games(index) && Games(index) != {} && games[0] == OldestGame(index)
  {
    assert games[0] in games;
    var k := OldestGame(index);
    assert k in games;
    var i :| 0 <= i < |games| && games[i] == k;
  }

  lemma DropFirst(index: Index, games: seq<Key>)
    requires ByAge(index, games) && games != []
    ensures ByAge(index - {games[0]}, games[1..])
    ensures |Games(index)| > MAX_GAME_RECORDS <==> |games| > MAX_GAME_RECORDS
  {
    AllListed(index, games);
    assert forall k :: k in games <==> k == games[0] || k in games[1..];
    assert Games(index - {games[0]}) == Games(index) - {games[0]};
  }

  lemma AllListed(index: Index, games: seq<Key>)
    requires ByAge(index, games)
    ensures |games| == |Games(index)|
  {
    DistinctSize(games, Games(index));
  }
}
