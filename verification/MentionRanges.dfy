/** Ranges of a text that mention people, sorted and checked the way the
    protocol, the engine and the client all do. */
module MentionRanges {
  import opened Wrappers
  import opened ChatTypes

  function End(m: ChatMention): int { m.start + m.length }

  predicate InText(text: Text, m: ChatMention) { 0 <= m.start && 0 < m.length && End(m) <= |text| }

  function Covered(text: Text, m: ChatMention): Text
    requires InText(text, m)
  {
    text[m.start..End(m)]
  }

  predicate Apart(a: ChatMention, b: ChatMention) { End(a) <= b.start || End(b) <= a.start }

  ghost predicate AllApart(mentions: seq<ChatMention>) {
    forall i, j :: 0 <= i < j < |mentions| ==> Apart(mentions[i], mentions[j])
  }

  ghost predicate AllInText(text: Text, mentions: seq<ChatMention>) { forall m :: m in mentions ==> InText(text, m) }

  /** Each ends before the next starts. */
  ghost predicate Sequential(mentions: seq<ChatMention>) {
    forall i, j :: 0 <= i < j < |mentions| ==> End(mentions[i]) <= mentions[j].start
  }

  function Recipients(mentions: seq<ChatMention>): set<UserId> { set m | m in mentions :: m.userId }

  // ---- Sorting ----

  /** The source's comparisons: by start, then length, then, where `byUser`, by
      the user named. */
  predicate Before(a: ChatMention, b: ChatMention, byUser: bool) {
    || a.start < b.start
    || (a.start == b.start && (a.length < b.length || (a.length == b.length && (byUser ==> a.userId <= b.userId))))
  }

  function Insert(m: ChatMention, sorted: seq<ChatMention>, byUser: bool): seq<ChatMention> {
    if sorted == [] || Before(m, sorted[0], byUser) then [m] + sorted else [sorted[0]] + Insert(m, sorted[1..], byUser)
  }

  function Sort(mentions: seq<ChatMention>, byUser: bool): seq<ChatMention> {
    if mentions == [] then [] else Insert(mentions[0], Sort(mentions[1..], byUser), byUser)
  }

  ghost predicate InOrder(sorted: seq<ChatMention>, byUser: bool) {
    forall i, j :: 0 <= i < j < |sorted| ==> Before(sorted[i], sorted[j], byUser)
  }

  lemma AllApartCons(m: ChatMention, rest: seq<ChatMention>)
    ensures AllApart([m] + rest) <==> AllApart(rest) && forall x :: x in rest ==> Apart(m, x)
  {
    var all := [m] + rest;
    if AllApart(all) {
      forall i, j | 0 <= i < j < |rest| ensures Apart(rest[i], rest[j]) {
        assert all[i + 1] == rest[i] && all[j + 1] == rest[j];
      }
      forall x | x in rest ensures Apart(m, x) {
        var j :| 0 <= j < |rest| && rest[j] == x;
        assert all[0] == m && all[j + 1] == x;
      }
    }
  }

  lemma {:induction false} InsertedIsIn(m: ChatMention, sorted: seq<ChatMention>, byUser: bool, x: ChatMention)
    ensures x in Insert(m, sorted, byUser) <==> x == m || x in sorted
    decreases |sorted|
  {
    if sorted != [] && !Before(m, sorted[0], byUser) {
      InsertedIsIn(m, sorted[1..], byUser, x);
      assert x in sorted <==> x == sorted[0] || x in sorted[1..];
    }
  }

  lemma {:induction false} InsertKeepsOrder(m: ChatMention, sorted: seq<ChatMention>, byUser: bool)
    requires InOrder(sorted, byUser)
    ensures InOrder(Insert(m, sorted, byUser), byUser)
    decreases |sorted|
  {
    if sorted == [] || Before(m, sorted[0], byUser) {
    } else {
      InsertKeepsOrder(m, sorted[1..], byUser);
      var rest := Insert(m, sorted[1..], byUser);
      forall i | 0 <= i < |rest| ensures Before(sorted[0], rest[i], byUser) {
        InsertedIsIn(m, sorted[1..], byUser, rest[i]);
        assert rest[i] in rest;
      }
    }
  }

  lemma ApartIsSymmetric(a: ChatMention, b: ChatMention)
    ensures Apart(a, b) <==> Apart(b, a)
  {
  }

  lemma {:induction false} InsertKeepsApart(m: ChatMention, sorted: seq<ChatMention>, byUser: bool)
    ensures AllApart(Insert(m, sorted, byUser)) <==> AllApart([m] + sorted)
    decreases |sorted|
  {
    hide AllApart, Apart;
    if sorted != [] && !Before(m, sorted[0], byUser) {
      var (first, rest) := (sorted[0], sorted[1..]);
      InsertKeepsApart(m, rest, byUser);
      AllApartCons(first, Insert(m, rest, byUser));
      AllApartCons(m, rest);
      AllApartCons(m, sorted);
      AllApartCons(first, rest);
      ApartIsSymmetric(m, first);
      assert sorted == [first] + rest;
      forall x ensures x in Insert(m, rest, byUser) <==> x == m || x in rest { InsertedIsIn(m, rest, byUser, x); }
    }
  }

  lemma {:induction false} InsertedLength(m: ChatMention, sorted: seq<ChatMention>, byUser: bool)
    ensures |Insert(m, sorted, byUser)| == |sorted| + 1
    decreases |sorted|
  {
    if sorted != [] && !Before(m, sorted[0], byUser) { InsertedLength(m, sorted[1..], byUser); }
  }

  lemma NothingIsInOrder(byUser: bool)
    ensures InOrder([], byUser)
  {
  }

  /** Sorting puts the mentions in order, keeps them all and adds none, and does
      not change whether they are apart. */
  lemma {:induction false} SortSorts(mentions: seq<ChatMention>, byUser: bool)
    ensures InOrder(Sort(mentions, byUser), byUser)
    ensures forall x :: x in Sort(mentions, byUser) <==> x in mentions
    ensures AllApart(Sort(mentions, byUser)) <==> AllApart(mentions)
    ensures |Sort(mentions, byUser)| == |mentions|
    decreases |mentions|
  {
    hide AllApart, InOrder;
    if mentions == [] {
      NothingIsInOrder(byUser);
    } else {
      var (first, rest) := (mentions[0], mentions[1..]);
      SortSorts(rest, byUser);
      InsertKeepsOrder(first, Sort(rest, byUser), byUser);
      InsertKeepsApart(first, Sort(rest, byUser), byUser);
      AllApartCons(first, Sort(rest, byUser));
      AllApartCons(first, rest);
      assert mentions == [first] + rest;
      forall x ensures x in Sort(mentions, byUser) <==> x in mentions { InsertedIsIn(first, Sort(rest, byUser), byUser, x); }
      InsertedLength(first, Sort(rest, byUser), byUser);
    }
  }

  lemma {:induction false} SortedStays(mentions: seq<ChatMention>, byUser: bool)
    requires InOrder(mentions, byUser)
    ensures Sort(mentions, byUser) == mentions
    decreases |mentions|
  {
    if mentions != [] { SortedStays(mentions[1..], byUser); }
  }

  /** In the text and one after the other is in order. */
  lemma SequentialIsInOrder(text: Text, mentions: seq<ChatMention>, byUser: bool)
    requires Sequential(mentions) && AllInText(text, mentions)
    ensures InOrder(mentions, byUser) && AllApart(mentions)
  {
    forall i, j | 0 <= i < j < |mentions| ensures Before(mentions[i], mentions[j], byUser) {
      assert mentions[i] in mentions;
    }
  }

  /** In order and apart is one after the other. */
  lemma ApartIsSequential(text: Text, sorted: seq<ChatMention>, byUser: bool)
    requires InOrder(sorted, byUser) && AllInText(text, sorted) && AllApart(sorted)
    ensures Sequential(sorted)
  {
    forall i, j | 0 <= i < j < |sorted| ensures End(sorted[i]) <= sorted[j].start {
      assert sorted[i] in sorted && sorted[j] in sorted;
      assert Before(sorted[i], sorted[j], byUser) && Apart(sorted[i], sorted[j]);
    }
  }

  /** In order, neighbours apart means all apart. */
  lemma NeighboursApart(text: Text, sorted: seq<ChatMention>, byUser: bool)
    requires InOrder(sorted, byUser) && AllInText(text, sorted)
    requires forall i :: 1 <= i < |sorted| ==> End(sorted[i - 1]) <= sorted[i].start
    ensures Sequential(sorted)
  {
    forall i, j | 0 <= i < j < |sorted| ensures End(sorted[i]) <= sorted[j].start {
      assert i + 1 == j || Before(sorted[i + 1], sorted[j], byUser);
    }
  }

  /** The sorted mentions, if all lie in the text and none overlap. */
  method SortedRanges(text: Text, mentions: seq<ChatMention>, byUser: bool) returns (sorted: Option<seq<ChatMention>>)
    ensures sorted.Some? <==> AllInText(text, mentions) && AllApart(mentions)
    ensures sorted.Some? ==> sorted.value == Sort(mentions, byUser) && Sequential(sorted.value) && AllInText(text, sorted.value)
  {
    hide AllApart, InOrder, Sort;
    var list := Sort(mentions, byUser);
    SortSorts(mentions, byUser);
    for i := 0 to |list|
      invariant forall k :: 0 <= k < i ==> InText(text, list[k])
    {
      if list[i].start < 0 || list[i].length <= 0 || End(list[i]) > |text| {
        assert list[i] in mentions && !InText(text, list[i]);
        return None;
      }
    }
    for i := 0 to |list|
      invariant forall k :: 1 <= k < i ==> End(list[k - 1]) <= list[k].start
    {
      if i > 0 && list[i].start < End(list[i - 1]) {
        if AllApart(list) { ApartIsSequential(text, list, byUser); }
        return None;
      }
    }
    NeighboursApart(text, list, byUser);
    SequentialIsInOrder(text, list, byUser);
    return Some(list);
  }
}
