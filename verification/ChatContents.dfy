/** Normalising chat content at the wire boundary
    (packages/protocol/src/chat.ts). */
module ChatContents {
  import opened Wrappers
  import opened ChatTypes
  import opened MentionRanges

  /** The white space and line ends that trimming removes. */
  predicate Blank(c: CodeUnit) {
    || 9 <= c <= 13 || c == 32 || c == 0xA0 || c == 0x1680 || 0x2000 <= c <= 0x200A
    || c == 0x2028 || c == 0x2029 || c == 0x202F || c == 0x205F || c == 0x3000 || c == 0xFEFF
  }

  function Leading(text: Text): (n: nat)
    ensures n <= |text| && (forall i :: 0 <= i < n ==> Blank(text[i])) && (n < |text| ==> !Blank(text[n]))
  {
    if text == [] || !Blank(text[0]) then 0 else 1 + Leading(text[1..])
  }

  function TrailingEnd(text: Text): (n: nat)
    ensures n <= |text| && (forall i :: n <= i < |text| ==> Blank(text[i])) && (n > 0 ==> !Blank(text[n - 1]))
  {
    if text == [] then 0 else if !Blank(text[|text| - 1]) then |text| else TrailingEnd(text[..|text| - 1])
  }

  function Trim(text: Text): Text {
    if Leading(text) < TrailingEnd(text) then text[Leading(text)..TrailingEnd(text)] else []
  }

  function ShiftedBy(mentions: seq<ChatMention>, leading: nat): (r: seq<ChatMention>)
    ensures |r| == |mentions| && forall i :: 0 <= i < |r| ==> r[i] == mentions[i].(start := mentions[i].start - leading)
  {
    seq(|mentions|, i requires 0 <= i < |mentions| => mentions[i].(start := mentions[i].start - leading))
  }

  /** Content the boundary accepts. */
  ghost predicate Acceptable(text: Text, mentions: seq<ChatMention>) {
    && AllInText(text, mentions) && AllApart(mentions)
    && |Recipients(mentions)| <= CHAT_MAX_MENTION_RECIPIENTS
    && (forall m :: m in mentions ==> Leading(text) <= m.start && End(m) <= TrailingEnd(text))
    && 1 <= |Trim(text)| <= CHAT_MAX_TEXT_LENGTH
  }

  function Normal(text: Text, mentions: seq<ChatMention>): ChatContent {
    ChatContent(Trim(text), ShiftedBy(Sort(mentions, true), Leading(text)))
  }

  method NormalizeChatContent(text: Text, raw: seq<ChatMention>) returns (content: Option<ChatContent>)
    ensures content.Some? <==> Acceptable(text, raw)
    ensures content.Some? ==> content.value == Normal(text, raw)
  {
    hide Sort, AllApart, AllInText, Sequential;
    var ranges := SortedRanges(text, raw, true);
    if ranges.None? { return None; }
    var mentions := ranges.value;
    SortSorts(raw, true);
    assert Recipients(mentions) == Recipients(raw);
    if |Recipients(mentions)| > CHAT_MAX_MENTION_RECIPIENTS { return None; }
    var leading, trailingEnd := Leading(text), TrailingEnd(text);
    if exists m :: m in mentions && (m.start < leading || End(m) > trailingEnd) { return None; }
    var canonical := if leading < trailingEnd then text[leading..trailingEnd] else [];
    if |canonical| < 1 || |canonical| > CHAT_MAX_TEXT_LENGTH { return None; }
    return Some(ChatContent(canonical, ShiftedBy(mentions, leading)));
  }

  /** Normalising keeps the text each mention covers, who it names, and leaves
      them one after the other. */
  lemma NormalKeepsMentions(text: Text, mentions: seq<ChatMention>, i: nat)
    requires Acceptable(text, mentions) && i < |mentions|
    ensures var sorted := Sort(mentions, true);
      var normal := Normal(text, mentions);
      && |normal.mentions| == |sorted| == |mentions|
      && InText(text, sorted[i]) && InText(normal.text, normal.mentions[i])
      && Covered(normal.text, normal.mentions[i]) == Covered(text, sorted[i])
      && normal.mentions[i].userId == sorted[i].userId
      && sorted[i] in mentions
  {
    hide Sort;
    var sorted := Sort(mentions, true);
    SortSorts(mentions, true);
    var normal := Normal(text, mentions);
    assert sorted[i] in sorted;
    var (a, b) := (sorted[i].start, End(sorted[i]));
    assert normal.text == text[Leading(text)..TrailingEnd(text)];
    assert normal.text[a - Leading(text)..b - Leading(text)] == text[a..b];
  }

  lemma NormalIsSequential(text: Text, mentions: seq<ChatMention>)
    requires Acceptable(text, mentions)
    ensures var normal := Normal(text, mentions);
      Sequential(normal.mentions) && AllInText(normal.text, normal.mentions)
      && |Recipients(normal.mentions)| <= CHAT_MAX_MENTION_RECIPIENTS
  {
    hide Sort, Acceptable;
    var sorted := Sort(mentions, true);
    SortSorts(mentions, true);
    SortedIsSequential(text, mentions);
    var normal := Normal(text, mentions);
    forall m | m in normal.mentions ensures InText(normal.text, m) {
      var i :| 0 <= i < |normal.mentions| && normal.mentions[i] == m;
      NormalKeepsMentions(text, mentions, i);
    }
    SameRecipients(sorted, Leading(text));
    assert Recipients(sorted) == Recipients(mentions);
    FewRecipients(text, mentions);
  }

  lemma FewRecipients(text: Text, mentions: seq<ChatMention>)
    requires Acceptable(text, mentions)
    ensures |Recipients(mentions)| <= CHAT_MAX_MENTION_RECIPIENTS
  {
  }

  lemma SortedIsSequential(text: Text, mentions: seq<ChatMention>)
    requires Acceptable(text, mentions)
    ensures Sequential(Sort(mentions, true))
  {
    hide Sort;
    SortSorts(mentions, true);
    ApartIsSequential(text, Sort(mentions, true), true);
  }

  lemma SameRecipients(mentions: seq<ChatMention>, leading: nat)
    ensures Recipients(ShiftedBy(mentions, leading)) == Recipients(mentions)
  {
    var shifted := ShiftedBy(mentions, leading);
    forall u ensures u in Recipients(shifted) <==> u in Recipients(mentions) {
      if u in Recipients(mentions) {
        var i :| 0 <= i < |mentions| && mentions[i].userId == u;
        assert shifted[i] in shifted;
      }
      if u in Recipients(shifted) {
        var i :| 0 <= i < |shifted| && shifted[i].userId == u;
        assert mentions[i] in mentions;
      }
    }
  }

  lemma TrimmedStays(text: Text)
    requires Trim(text) != []
    ensures Leading(Trim(text)) == 0 && TrailingEnd(Trim(text)) == |Trim(text)| && Trim(Trim(text)) == Trim(text)
  {
    var trimmed := Trim(text);
    assert !Blank(trimmed[0]) && !Blank(trimmed[|trimmed| - 1]);
    assert trimmed[0..|trimmed|] == trimmed;
  }

  /** What has been normalised is accepted again, and comes out the same. */
  lemma NormalisingIsIdempotent(text: Text, mentions: seq<ChatMention>)
    requires Acceptable(text, mentions)
    ensures var normal := Normal(text, mentions);
      Acceptable(normal.text, normal.mentions) && Normal(normal.text, normal.mentions) == normal
  {
    hide Sort, Sequential, AllInText;
    var normal := Normal(text, mentions);
    NormalIsSequential(text, mentions);
    TrimmedStays(text);
    SequentialIsInOrder(normal.text, normal.mentions, true);
    SortedStays(normal.mentions, true);
    AllInTextMeans(normal.text, normal.mentions);
    assert ShiftedBy(normal.mentions, 0) == normal.mentions;
  }

  lemma AllInTextMeans(text: Text, mentions: seq<ChatMention>)
    requires AllInText(text, mentions)
    ensures forall m :: m in mentions ==> InText(text, m)
  {
  }

  // ---- What trimming leaves ----

  ghost predicate AllBlank(text: Text) { forall i :: 0 <= i < |text| ==> Blank(text[i]) }

  lemma {:induction false} LeadingOf(a: Text, rest: Text)
    requires AllBlank(a) && (rest == [] || !Blank(rest[0]))
    ensures Leading(a + rest) == |a|
  {
    if a == [] {
      assert a + rest == rest;
    } else {
      assert (a + rest)[1..] == a[1..] + rest;
      LeadingOf(a[1..], rest);
    }
  }

  lemma {:induction false} TrailingEndOf(rest: Text, b: Text)
    requires AllBlank(b) && (rest == [] || !Blank(rest[|rest| - 1]))
    ensures TrailingEnd(rest + b) == |rest|
    decreases |b|
  {
    if b == [] {
      assert rest + b == rest;
    } else {
      assert (rest + b)[..|rest + b| - 1] == rest + b[..|b| - 1];
      TrailingEndOf(rest, b[..|b| - 1]);
    }
  }

  /** Between blanks stands what trimming leaves. */
  lemma TrimmingLeaves(a: Text, middle: Text, b: Text)
    requires AllBlank(a) && AllBlank(b) && middle != [] && !Blank(middle[0]) && !Blank(middle[|middle| - 1])
    ensures Leading(a + middle + b) == |a| && TrailingEnd(a + middle + b) == |a| + |middle| && Trim(a + middle + b) == middle
  {
    assert a + middle + b == a + (middle + b) && (middle + b)[0] == middle[0];
    LeadingOf(a, middle + b);
    TrailingEndOf(a + middle, b);
  }

  lemma NothingIsLeft(text: Text)
    requires AllBlank(text)
    ensures Trim(text) == []
  {
  }

  /** Of the characters of plain text only the space and the line and tab controls are
      blank. */
  lemma PlainCharactersStay(c: CodeUnit)
    requires c < 0x80
    ensures Blank(c) <==> c == SPACE || (9 <= c <= 13)
  {
  }

  /** Content is accepted exactly when what trimming leaves of it is not empty nor longer
      than 500, and every mention is a range of that, apart from the others, and at most
      eight people are named. */
  lemma AcceptedExactlyWhen(a: Text, middle: Text, b: Text, mentions: seq<ChatMention>)
    requires AllBlank(a) && AllBlank(b) && middle != [] && !Blank(middle[0]) && !Blank(middle[|middle| - 1])
    ensures Acceptable(a + middle + b, mentions) <==>
            && |middle| <= 500
            && (forall m :: m in mentions ==> |a| <= m.start && 0 < m.length && m.start + m.length <= |a| + |middle|)
            && (forall i, j :: 0 <= i < j < |mentions| ==>
                  || mentions[i].start + mentions[i].length <= mentions[j].start
                  || mentions[j].start + mentions[j].length <= mentions[i].start)
            && |set m | m in mentions :: m.userId| <= 8
  {
    hide Trim, Leading, TrailingEnd, Blank;
    TrimmingLeaves(a, middle, b);
    assert |a + middle + b| == |a| + |middle| + |b|;
    assert Recipients(mentions) == set m | m in mentions :: m.userId;
  }
}
