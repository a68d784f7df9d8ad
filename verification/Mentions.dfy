/** Editing a draft that mentions people (apps/client/src/chat/mentions.ts, and
    the guard of chat-components.tsx). */
module Mentions {
  import opened Wrappers
  import opened ChatTypes
  import opened MentionRanges
  import opened Slices

  datatype Draft = Draft(text: Text, mentions: seq<ChatMention>)

  datatype Diff = Diff(start: nat, removed: nat, inserted: nat, oldEnd: nat, newEnd: nat)

  datatype Query = Query(start: nat, end: nat, query: Text)

  datatype Candidate = Candidate(userId: UserId, displayName: Text)

  datatype Segment = Plain(text: Text) | Mention(text: Text, userId: UserId)

  // ---- The edited region ----

  /** Text outside the region is common to both, and the region cannot shrink. */
  ghost predicate IsDiff(before: Text, after: Text, d: Diff) {
    && d.start <= d.oldEnd <= |before| && d.start <= d.newEnd <= |after|
    && d.removed == d.oldEnd - d.start && d.inserted == d.newEnd - d.start
    && before[..d.start] == after[..d.start] && before[d.oldEnd..] == after[d.newEnd..]
    && (d.start < |before| && d.start < |after| ==> before[d.start] != after[d.start])
    && (d.start < d.oldEnd && d.start < d.newEnd ==> before[d.oldEnd - 1] != after[d.newEnd - 1])
  }

  method DiffChatText(before: Text, after: Text) returns (d: Diff)
    ensures IsDiff(before, after, d)
  {
    var start := 0;
    while start < |before| && start < |after| && before[start] == after[start]
      invariant 0 <= start <= |before| && start <= |after| && before[..start] == after[..start]
    {
      start := start + 1;
    }
    var oldEnd, newEnd := |before|, |after|;
    while oldEnd > start && newEnd > start && before[oldEnd - 1] == after[newEnd - 1]
      invariant start <= oldEnd <= |before| && start <= newEnd <= |after|
      invariant before[oldEnd..] == after[newEnd..]
    {
      oldEnd := oldEnd - 1;
      newEnd := newEnd - 1;
      assert before[oldEnd..] == [before[oldEnd]] + before[oldEnd + 1..];
      assert after[newEnd..] == [after[newEnd]] + after[newEnd + 1..];
    }
    d := Diff(start, oldEnd - start, newEnd - start, oldEnd, newEnd);
  }

  lemma SamePrefix(before: Text, after: Text, n: nat)
    requires n <= |before| && n <= |after| && before[..n] == after[..n]
    ensures forall i :: 0 <= i < n ==> before[i] == after[i]
  {
    assert forall i :: 0 <= i < n ==> before[..n][i] == before[i] && after[..n][i] == after[i];
  }

  lemma SameSuffix(before: Text, after: Text, oldEnd: nat, newEnd: nat)
    requires oldEnd <= |before| && newEnd <= |after| && before[oldEnd..] == after[newEnd..]
    ensures |before| - oldEnd == |after| - newEnd
    ensures forall i :: oldEnd <= i < |before| ==> before[i] == after[i - oldEnd + newEnd]
  {
    assert |before[oldEnd..]| == |after[newEnd..]|;
    forall i | oldEnd <= i < |before| ensures before[i] == after[i - oldEnd + newEnd] {
      assert before[oldEnd..][i - oldEnd] == after[newEnd..][i - oldEnd];
    }
  }

  /** There is only one such region. */
  lemma DiffIsUnique(before: Text, after: Text, c: Diff, d: Diff)
    requires IsDiff(before, after, c) && IsDiff(before, after, d)
    ensures c == d
  {
    OneStart(before, after, c, d);
    OneStart(before, after, d, c);
    OneEnd(before, after, c, d);
    OneEnd(before, after, d, c);
  }

  lemma OneStart(before: Text, after: Text, c: Diff, d: Diff)
    requires IsDiff(before, after, c) && IsDiff(before, after, d)
    ensures d.start <= c.start
  {
    SamePrefix(before, after, d.start);
  }

  lemma OneEnd(before: Text, after: Text, c: Diff, d: Diff)
    requires IsDiff(before, after, c) && IsDiff(before, after, d) && c.start == d.start
    ensures c.oldEnd <= d.oldEnd && |before| - c.oldEnd == |after| - c.newEnd
  {
    SameSuffix(before, after, c.oldEnd, c.newEnd);
    SameSuffix(before, after, d.oldEnd, d.newEnd);
  }

  // ---- What becomes of one mention ----

  /** The edit reaches into the mention: it removes some of it, or inserts
      strictly inside it. */
  predicate Touches(m: ChatMention, d: Diff) {
    if d.removed == 0 then m.start < d.start < End(m) else m.start < d.oldEnd && d.start < End(m)
  }

  function Shift(d: Diff): int { d.inserted - d.removed }

  /** A mention after the edit: where it was, moved along, or gone. */
  function Moved(m: ChatMention, d: Diff): Option<ChatMention> {
    if End(m) <= d.start then Some(m)
    else if (m.start == d.start && d.removed == 0) || m.start >= d.oldEnd then Some(m.(start := m.start + Shift(d)))
    else None
  }

  /** A mention is dropped exactly when the edit reaches into it. */
  lemma DroppedWhenTouched(m: ChatMention, d: Diff)
    requires m.length > 0 && d.oldEnd == d.start + d.removed
    ensures Moved(m, d).None? <==> Touches(m, d)
  {
  }

  /** Where a mention goes: it stays before the edit, moves along behind it, and is gone
      when it is neither. */
  lemma WhereAMentionGoes(before: Text, after: Text, d: Diff, m: ChatMention)
    requires IsDiff(before, after, d) && m.length > 0
    ensures Moved(m, d) == if m.start + m.length <= d.start then Some(m)
                           else if d.oldEnd <= m.start then Some(m.(start := m.start + |after| - |before|))
                           else None
  {
    SameSuffix(before, after, d.oldEnd, d.newEnd);
  }

  lemma BeforeTheEdit(before: Text, after: Text, d: Diff, m: ChatMention)
    requires IsDiff(before, after, d) && InText(before, m) && End(m) <= d.start
    ensures InText(after, m) && Covered(after, m) == Covered(before, m)
  {
    SliceOfPrefix(before, d.start, m.start, End(m));
    SliceOfPrefix(after, d.start, m.start, End(m));
  }

  lemma BehindTheEdit(before: Text, after: Text, d: Diff, m: ChatMention, n: ChatMention)
    requires IsDiff(before, after, d) && InText(before, m) && m.start >= d.oldEnd
    requires n == m.(start := m.start - d.oldEnd + d.newEnd)
    ensures InText(after, n) && Covered(after, n) == Covered(before, m)
  {
    assert |before[d.oldEnd..]| == |after[d.newEnd..]|;
    SliceOfSuffix(before, d.oldEnd, m.start, End(m));
    SliceOfSuffix(after, d.newEnd, n.start, End(n));
  }

  /** A survivor keeps its user, its length and the very characters it covers. */
  lemma SurvivorCoversTheSame(before: Text, after: Text, d: Diff, m: ChatMention)
    requires IsDiff(before, after, d) && InText(before, m) && Moved(m, d).Some?
    ensures InText(after, Moved(m, d).value) && Covered(after, Moved(m, d).value) == Covered(before, m)
    ensures Moved(m, d).value.userId == m.userId && Moved(m, d).value.length == m.length
  {
    hide IsDiff, Covered;
    DiffBounds(before, after, d);
    if End(m) <= d.start { BeforeTheEdit(before, after, d, m); } else { BehindTheEdit(before, after, d, m, Moved(m, d).value); }
  }

  /** Two survivors stay apart and in the same order. */
  lemma SurvivorsKeepOrder(d: Diff, a: ChatMention, b: ChatMention)
    requires d.oldEnd == d.start + d.removed && d.newEnd == d.start + d.inserted
    requires a.length > 0 && b.length > 0 && End(a) <= b.start && Moved(a, d).Some? && Moved(b, d).Some?
    ensures End(Moved(a, d).value) <= Moved(b, d).value.start
  {
  }

  // ---- All mentions ----

  function Survivors(mentions: seq<ChatMention>, d: Diff): seq<ChatMention> {
    if mentions == [] then []
    else
      var last := Moved(mentions[|mentions| - 1], d);
      Survivors(mentions[..|mentions| - 1], d) + (if last.Some? then [last.value] else [])
  }

  method TransformMentions(mentions: seq<ChatMention>, d: Diff) returns (transformed: seq<ChatMention>)
    requires d.oldEnd == d.start + d.removed
    ensures transformed == Sort(Survivors(mentions, d), true)
  {
    var removedEnd := d.oldEnd;
    var delta := d.inserted - d.removed;
    var list: seq<ChatMention> := [];
    for i := 0 to |mentions|
      invariant list == Survivors(mentions[..i], d)
    {
      var mention := mentions[i];
      assert mentions[..i + 1][..i] == mentions[..i];
      var end := mention.start + mention.length;
      if end <= d.start {
        list := list + [mention];
      } else if mention.start == d.start && d.removed == 0 {
        list := list + [mention.(start := mention.start + delta)];
      } else if mention.start >= removedEnd {
        list := list + [mention.(start := mention.start + delta)];
      } else if d.removed == 0 && d.start == end {
        list := list + [mention];
      }
    }
    assert mentions[..|mentions|] == mentions;
    return Sort(list, true);
  }

  ghost predicate ValidDraft(draft: Draft) { Sequential(draft.mentions) && AllInText(draft.text, draft.mentions) }

  lemma {:induction false} SurvivorComesFrom(mentions: seq<ChatMention>, d: Diff, x: ChatMention)
    ensures x in Survivors(mentions, d) <==> exists m :: m in mentions && Moved(m, d) == Some(x)
    decreases |mentions|
  {
    hide Moved;
    if mentions != [] {
      var (init, last) := (mentions[..|mentions| - 1], mentions[|mentions| - 1]);
      SurvivorComesFrom(init, d, x);
      assert mentions == init + [last];
      if Moved(last, d) == Some(x) { assert last in mentions; }
      if m :| m in mentions && Moved(m, d) == Some(x) { assert m in init || m == last; }
    }
  }

  lemma {:induction false} SurvivorsAreSequential(text: Text, mentions: seq<ChatMention>, d: Diff)
    requires d.oldEnd == d.start + d.removed && d.newEnd == d.start + d.inserted
    requires Sequential(mentions) && AllInText(text, mentions)
    ensures Sequential(Survivors(mentions, d))
    decreases |mentions|
  {
    hide Moved;
    if mentions != [] {
      var (init, last) := (mentions[..|mentions| - 1], mentions[|mentions| - 1]);
      assert forall m :: m in init ==> m in mentions;
      SurvivorsAreSequential(text, init, d);
      if Moved(last, d).Some? {
        var kept := Survivors(init, d);
        forall i | 0 <= i < |kept| ensures End(kept[i]) <= Moved(last, d).value.start {
          assert kept[i] in kept;
          SurvivorComesFrom(init, d, kept[i]);
          var m :| m in init && Moved(m, d) == Some(kept[i]);
          assert m in mentions && last in mentions;
          SurvivorsKeepOrder(d, m, last);
        }
      }
    }
  }

  lemma SurvivorsAreInText(before: Text, after: Text, mentions: seq<ChatMention>, d: Diff)
    requires IsDiff(before, after, d) && AllInText(before, mentions)
    ensures AllInText(after, Survivors(mentions, d))
  {
    hide Moved, IsDiff;
    forall x | x in Survivors(mentions, d) ensures InText(after, x) {
      SurvivorComesFrom(mentions, d, x);
      var m :| m in mentions && Moved(m, d) == Some(x);
      SurvivorCoversTheSame(before, after, d, m);
    }
  }

  /** A valid draft stays valid: what the edit did not reach into survives, moved
      with its characters, and nothing else is there. */
  method ApplyChatEdit(draft: Draft, newText: Text) returns (edited: Draft, ghost d: Diff)
    ensures edited.text == newText && IsDiff(draft.text, newText, d)
    ensures edited.mentions == Sort(Survivors(draft.mentions, d), true)
    ensures ValidDraft(draft) ==> ValidDraft(edited) && edited.mentions == Survivors(draft.mentions, d)
  {
    var diff := DiffChatText(draft.text, newText);
    d := diff;
    var mentions := TransformMentions(draft.mentions, diff);
    edited := Draft(newText, mentions);
    if ValidDraft(draft) { EditKeepsValid(draft, newText, diff); }
  }

  lemma EditKeepsValid(draft: Draft, newText: Text, d: Diff)
    requires ValidDraft(draft) && IsDiff(draft.text, newText, d)
    ensures ValidDraft(Draft(newText, Sort(Survivors(draft.mentions, d), true)))
    ensures Sort(Survivors(draft.mentions, d), true) == Survivors(draft.mentions, d)
  {
    var kept := Survivors(draft.mentions, d);
    SurvivorsAreSequential(draft.text, draft.mentions, d);
    SurvivorsAreInText(draft.text, newText, draft.mentions, d);
    SequentialIsInOrder(newText, kept, true);
    SortedStays(kept, true);
  }

  // ---- Looking for somebody to mention ----

  /** The last '@' at or before `from`. */
  function LastAt(text: Text, from: nat): (at: Option<nat>)
    ensures at.Some? ==> at.value <= from && at.value < |text| && text[at.value] == AT
    ensures forall i :: 0 <= i <= from && i < |text| && (at.Some? ==> at.value < i) ==> text[i] != AT
    decreases from
  {
    if from < |text| && text[from] == AT then Some(from) else if from == 0 then None else LastAt(text, from - 1)
  }

  /** `allowed` tells whether every character of a text is a letter, a digit,
      a space, '_' or '-'. A search that would start before the text starts at
      its first character. */
  function FindMentionQuery(text: Text, caret: int, allowed: Text -> bool): (query: Option<Query>)
    ensures query.Some? ==>
              && query.value.end == caret && query.value.start < |text| && text[query.value.start] == AT
              && (query.value.query != [] ==>
                    query.value.start < caret <= |text| && query.value.query == text[query.value.start + 1..caret] && AT !in query.value.query)
  {
    if caret < 0 || caret > |text| then None
    else
      var at := LastAt(text, if caret == 0 then 0 else caret - 1);
      if at.None? then None
      else
        var query := if at.value + 1 <= caret then text[at.value + 1..caret] else [];
        if |query| > 24 || AT in query || !allowed(query) then None else Some(Query(at.value, caret, query))
  }

  /** No query on nothing, nor on a mention that is already there. */
  function QueryFor(text: Text, caret: int, mentions: seq<ChatMention>, allowed: Text -> bool): (query: Option<Query>)
  {
    var found := FindMentionQuery(text, caret, allowed);
    if found.None? || found.value.query == [] || exists m :: m in mentions && m.start == found.value.start then None else found
  }

  /** A query is found exactly where an '@' is followed, up to the caret, by at most 24
      allowed characters and no other '@'. */
  lemma AQueryIsFound(text: Text, caret: nat, allowed: Text -> bool, at: nat)
    requires at < caret <= |text|
    ensures FindMentionQuery(text, caret, allowed) == Some(Query(at, caret, text[at + 1..caret])) <==>
            && text[at] == AT && (forall i :: at < i < caret ==> text[i] != AT)
            && caret - at <= 25 && allowed(text[at + 1..caret])
  {
    var found := LastAt(text, caret - 1);
    if text[at] == AT && forall i :: at < i < caret ==> text[i] != AT {
      assert found == Some(at);
      var query := text[at + 1..caret];
      forall k | 0 <= k < |query| ensures query[k] != AT { assert query[k] == text[at + 1 + k]; }
    }
    if FindMentionQuery(text, caret, allowed) == Some(Query(at, caret, text[at + 1..caret])) {
      forall i | at < i < caret ensures text[i] != AT { assert text[at + 1..caret][i - at - 1] == text[i]; }
    }
  }

  /** Nothing is found before the text or behind its end; with the caret in front of the
      text only an '@' right there is. */
  lemma NoQueryOutside(text: Text, caret: int, allowed: Text -> bool)
    ensures caret < 0 || caret > |text| ==> FindMentionQuery(text, caret, allowed).None?
    ensures caret == 0 ==> (FindMentionQuery(text, caret, allowed).Some? <==> text != [] && text[0] == AT && allowed([]))
    ensures caret > 0 && FindMentionQuery(text, caret, allowed).Some? ==>
              var q := FindMentionQuery(text, caret, allowed).value; q.start < caret == q.end && q.query == text[q.start + 1..caret]
  {
  }

  /** The picker opens for what has been typed behind the '@', unless a mention is
      already there. */
  lemma ThePickerOpens(text: Text, caret: nat, mentions: seq<ChatMention>, allowed: Text -> bool, at: nat)
    requires at + 1 < caret <= |text| && text[at] == AT && (forall i :: at < i < caret ==> text[i] != AT)
    requires caret - at <= 25 && allowed(text[at + 1..caret])
    ensures (exists m :: m in mentions && m.start == at) ==> QueryFor(text, caret, mentions, allowed).None?
    ensures (forall m :: m in mentions ==> m.start != at) ==>
              QueryFor(text, caret, mentions, allowed) == Some(Query(at, caret, text[at + 1..caret]))
  {
    hide FindMentionQuery;
    AQueryIsFound(text, caret, allowed, at);
  }

  // ---- Mentioning them ----

  /** What a mention covers: '@' and then no other '@'. */
  predicate Spelled(covered: Text) { covered != [] && covered[0] == AT && AT !in covered[1..] }

  ghost predicate SpelledDraft(draft: Draft) {
    ValidDraft(draft) && forall m :: m in draft.mentions ==> Spelled(Covered(draft.text, m))
  }

  /** Any edit keeps a spelled draft spelled. */
  lemma EditKeepsSpelled(draft: Draft, newText: Text, d: Diff)
    requires SpelledDraft(draft) && IsDiff(draft.text, newText, d)
    ensures SpelledDraft(Draft(newText, Survivors(draft.mentions, d)))
  {
    hide IsDiff, Moved, Spelled, Survivors;
    EditKeepsValid(draft, newText, d);
    forall x | x in Survivors(draft.mentions, d) ensures Spelled(Covered(newText, x)) {
      SurvivorComesFrom(draft.mentions, d, x);
      var m :| m in draft.mentions && Moved(m, d) == Some(x);
      SurvivorCoversTheSame(draft.text, newText, d, m);
    }
  }

  function Replaced(text: Text, query: Query, name: Text): Text
    requires query.start <= query.end <= |text|
  {
    text[..query.start] + ([AT] + name + [SPACE]) + text[query.end..]
  }

  method SelectMention(draft: Draft, query: Query, candidate: Candidate) returns (edited: Draft, ghost d: Diff)
    requires query.start <= query.end <= |draft.text|
    ensures edited.text == Replaced(draft.text, query, candidate.displayName) && IsDiff(draft.text, edited.text, d)
    ensures edited.mentions == Sort(Sort(Survivors(draft.mentions, d), true)
                                    + [ChatMention(candidate.userId, query.start, |candidate.displayName| + 1)], true)
  {
    var replacement := [AT] + candidate.displayName + [SPACE];
    var nextText := draft.text[..query.start] + replacement + draft.text[query.end..];
    var kept;
    kept, d := ApplyChatEdit(draft, nextText);
    var selected := ChatMention(candidate.userId, query.start, |replacement| - 1);
    edited := Draft(kept.text, Sort(kept.mentions + [selected], true));
  }

  /** In place of the query stand an '@', the name and a space; the rest stays. */
  lemma WhatASelectionWrites(text: Text, query: Query, name: Text)
    requires query.start <= query.end <= |text|
    ensures var (after, behind) := (Replaced(text, query, name), query.start + |name| + 2);
            && |after| == |text| - (query.end - query.start) + |name| + 2
            && after[..query.start] == text[..query.start] && after[query.start] == AT
            && after[query.start + 1..behind - 1] == name && after[behind - 1] == SPACE
            && after[behind..] == text[query.end..]
  {
  }

  /** Two such spellings in one text that start at different places are apart. */
  lemma SpellingsAreApart(text: Text, a: ChatMention, b: ChatMention)
    requires InText(text, a) && InText(text, b) && Spelled(Covered(text, a)) && Spelled(Covered(text, b))
    requires a.start != b.start
    ensures Apart(a, b)
  {
    SpelledOnce(text, a);
    SpelledOnce(text, b);
  }

  lemma SpelledOnce(text: Text, m: ChatMention)
    requires InText(text, m) && Spelled(Covered(text, m))
    ensures text[m.start] == AT && forall k :: m.start < k < End(m) ==> text[k] != AT
  {
    forall k | m.start < k < End(m) ensures text[k] != AT {
      assert Covered(text, m)[1..][k - m.start - 1] == text[k];
    }
  }

  /** The edit of a selection leaves the '@' of the query alone. */
  lemma SelectionStartsAfterAt(text: Text, query: Query, name: Text, d: Diff)
    requires query.start < query.end <= |text| && text[query.start] == AT
    requires IsDiff(text, Replaced(text, query, name), d)
    ensures d.start > query.start
  {
    var after := Replaced(text, query, name);
    assert text[..query.start + 1] == after[..query.start + 1];
    SamePrefix(text, after, query.start + 1);
  }

  lemma SelectedIsSpelled(text: Text, query: Query, candidate: Candidate)
    requires query.start < query.end <= |text| && AT !in candidate.displayName
    ensures var after := Replaced(text, query, candidate.displayName);
      var selected := ChatMention(candidate.userId, query.start, |candidate.displayName| + 1);
      InText(after, selected) && Covered(after, selected) == [AT] + candidate.displayName && Spelled(Covered(after, selected))
  {
    var after := Replaced(text, query, candidate.displayName);
    var selected := ChatMention(candidate.userId, query.start, |candidate.displayName| + 1);
    assert Covered(after, selected) == [AT] + candidate.displayName;
    assert ([AT] + candidate.displayName)[1..] == candidate.displayName;
  }

  /** A survivor of the selection starts somewhere else than the new mention. */
  lemma SurvivorStartsElsewhere(m: ChatMention, query: Query, d: Diff)
    requires d.start > query.start && d.oldEnd == d.start + d.removed && d.newEnd == d.start + d.inserted
    requires Moved(m, d).Some? && m.start != query.start && m.length > 0
    ensures Moved(m, d).value.start != query.start
  {
  }

  /** Selecting somebody whose name has no '@', at a query the guard allows,
      gives a draft whose mentions are sorted, disjoint, in bounds and spelled
      out, with the new one among them. */
  lemma SelectionIsValid(draft: Draft, caret: int, allowed: Text -> bool, query: Query, candidate: Candidate, d: Diff, edited: Draft)
    requires SpelledDraft(draft) && QueryFor(draft.text, caret, draft.mentions, allowed) == Some(query)
    requires AT !in candidate.displayName
    requires edited.text == Replaced(draft.text, query, candidate.displayName) && IsDiff(draft.text, edited.text, d)
    requires edited.mentions == Sort(Sort(Survivors(draft.mentions, d), true)
                                     + [ChatMention(candidate.userId, query.start, |candidate.displayName| + 1)], true)
    ensures SpelledDraft(edited)
    ensures ChatMention(candidate.userId, query.start, |candidate.displayName| + 1) in edited.mentions
  {
    hide IsDiff, Moved, Sort, Survivors, Replaced, Spelled;
    var selected := ChatMention(candidate.userId, query.start, |candidate.displayName| + 1);
    var kept := Survivors(draft.mentions, d);
    EditKeepsValid(draft, edited.text, d);
    SelectionStartsAfterAt(draft.text, query, candidate.displayName, d);
    SelectedIsSpelled(draft.text, query, candidate);
    var all := kept + [selected];
    forall m | m in kept ensures Spelled(Covered(edited.text, m)) && Apart(m, selected) {
      SurvivorComesFrom(draft.mentions, d, m);
      var old_ :| old_ in draft.mentions && Moved(old_, d) == Some(m);
      SurvivorCoversTheSame(draft.text, edited.text, d, old_);
      DiffBounds(draft.text, edited.text, d);
      SurvivorStartsElsewhere(old_, query, d);
      SpellingsAreApart(edited.text, m, selected);
    }
    AllApartSnoc(edited.text, kept, selected);
    SortSorts(all, true);
    ApartIsSequential(edited.text, edited.mentions, true);
    assert selected in all;
  }

  lemma DiffBounds(before: Text, after: Text, d: Diff)
    requires IsDiff(before, after, d)
    ensures d.oldEnd == d.start + d.removed && d.newEnd == d.start + d.inserted
  {
  }

  lemma AllApartSnoc(text: Text, kept: seq<ChatMention>, m: ChatMention)
    requires Sequential(kept) && AllInText(text, kept) && InText(text, m)
    requires forall k :: k in kept ==> Apart(k, m)
    ensures AllApart(kept + [m]) && AllInText(text, kept + [m])
  {
    var all := kept + [m];
    forall i, j | 0 <= i < j < |all| ensures Apart(all[i], all[j]) {
      if j == |kept| { assert kept[i] in kept; }
    }
  }

  // ---- Rendering ----

  function Shown(segments: seq<Segment>): Text {
    if segments == [] then [] else Shown(segments[..|segments| - 1]) + segments[|segments| - 1].text
  }

  function Highlights(segments: seq<Segment>): seq<Segment> {
    if segments == [] then []
    else Highlights(segments[..|segments| - 1]) + (if segments[|segments| - 1].Mention? then [segments[|segments| - 1]] else [])
  }

  lemma ShownSnoc(segments: seq<Segment>, s: Segment)
    ensures Shown(segments + [s]) == Shown(segments) + s.text
    ensures Highlights(segments + [s]) == Highlights(segments) + if s.Mention? then [s] else []
  {
    assert (segments + [s])[..|segments|] == segments;
  }

  function MentionSegments(text: Text, mentions: seq<ChatMention>): (segments: seq<Segment>)
    requires AllInText(text, mentions)
    ensures |segments| == |mentions|
  {
    seq(|mentions|, i requires 0 <= i < |mentions| =>
      assert mentions[i] in mentions;
      Mention(Covered(text, mentions[i]), mentions[i].userId))
  }

  lemma RangeAt(text: Text, sorted: seq<ChatMention>, i: nat)
    requires Sequential(sorted) && AllInText(text, sorted) && i < |sorted|
    ensures InText(text, sorted[i]) && (i > 0 ==> End(sorted[i - 1]) <= sorted[i].start)
  {
    assert sorted[i] in sorted;
  }

  lemma MentionSegmentsSnoc(text: Text, sorted: seq<ChatMention>, i: nat)
    requires AllInText(text, sorted) && i < |sorted| && InText(text, sorted[i])
    ensures MentionSegments(text, sorted)[..i + 1]
         == MentionSegments(text, sorted)[..i] + [Mention(Covered(text, sorted[i]), sorted[i].userId)]
  {
  }

  /** The plain text up to a mention, and the mention. */
  method RenderOne(text: Text, before: seq<Segment>, cursor: nat, mention: ChatMention) returns (segments: seq<Segment>)
    requires InText(text, mention) && cursor <= mention.start && Shown(before) == text[..cursor]
    ensures segments != [] && Shown(segments) == text[..End(mention)]
    ensures Highlights(segments) == Highlights(before) + [Mention(Covered(text, mention), mention.userId)]
  {
    hide Shown, Highlights;
    segments := before;
    if mention.start > cursor {
      var plain := Plain(text[cursor..mention.start]);
      ShownSnoc(segments, plain);
      segments := segments + [plain];
      assert text[..mention.start] == text[..cursor] + text[cursor..mention.start];
      assert Highlights(before) + [] == Highlights(before);
    }
    var shown := Mention(text[mention.start..mention.start + mention.length], mention.userId);
    ShownSnoc(segments, shown);
    segments := segments + [shown];
    assert text[..End(mention)] == text[..mention.start] + text[mention.start..End(mention)];
  }

  /** The segments spell the text; those of valid mentions are highlighted, in
      order, and with any invalid mention nothing is. */
  method RenderMentionSegments(text: Text, mentions: seq<ChatMention>) returns (segments: seq<Segment>)
    ensures Shown(segments) == text && segments != []
    ensures AllInText(text, mentions) && AllApart(mentions) ==>
              AllInText(text, Sort(mentions, true)) && Highlights(segments) == MentionSegments(text, Sort(mentions, true))
    ensures !(AllInText(text, mentions) && AllApart(mentions)) ==> segments == [Plain(text)]
  {
    hide Sort, AllApart, Sequential, AllInText, MentionSegments;
    var ranges := SortedRanges(text, mentions, true);
    if ranges.None? {
      ShownSnoc([], Plain(text));
      assert [] + [Plain(text)] == [Plain(text)];
      return [Plain(text)];
    }
    var sorted := ranges.value;
    segments := [];
    var cursor := 0;
    for i := 0 to |sorted|
      invariant 0 <= cursor <= |text| && cursor == (if i == 0 then 0 else End(sorted[i - 1]))
      invariant i > 0 ==> segments != []
      invariant Shown(segments) == text[..cursor]
      invariant Highlights(segments) == MentionSegments(text, sorted)[..i]
    {
      RangeAt(text, sorted, i);
      segments := RenderOne(text, segments, cursor, sorted[i]);
      cursor := sorted[i].start + sorted[i].length;
      MentionSegmentsSnoc(text, sorted, i);
    }
    if cursor < |text| {
      ShownSnoc(segments, Plain(text[cursor..]));
      segments := segments + [Plain(text[cursor..])];
      assert text == text[..cursor] + text[cursor..];
    }
    assert MentionSegments(text, sorted)[..|sorted|] == MentionSegments(text, sorted);
    if segments == [] {
      ShownSnoc([], Plain(text));
      assert [] + [Plain(text)] == [Plain(text)];
      segments := [Plain(text)];
    }
  }
}
