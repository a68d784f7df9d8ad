/** Building a bot's chat message (apps/server/src/bots/mentions.ts). */
module BotMentions {
  import opened Wrappers
  import opened Slices
  import opened ChatTypes
  import opened MentionRanges
  import opened ChatContents
  import GameChat
  import GameState
  import Roles

  type Channel = Roles.Channel

  datatype Candidate = Candidate(id: nat, userId: UserId, displayName: Text, channels: set<Channel>)

  datatype Decision = Decision(channel: Option<Channel>, mentionIds: seq<nat>, say: Option<Text>)

  datatype Input = Input(candidates: seq<Candidate>, speakable: set<Channel>)

  const MAX_SPEECH: nat := 300

  // ---- Cutting text ----

  predicate HighSurrogate(c: CodeUnit) { 0xD800 <= c <= 0xDBFF }

  /** At most `max` code units, never ending in half of a surrogate pair that
      the text went on with. */
  function TruncateUtf16(value: Text, max: int): (r: Text)
    ensures r <= value && |r| <= (if max < 0 then 0 else max)
    ensures |value| <= max ==> r == value
    ensures 0 < max < |value| ==> |r| == if 0xD800 <= value[max - 1] <= 0xDBFF then max - 1 else max
  {
    if max <= 0 then []
    else if |value| <= max then value
    else if HighSurrogate(value[max - 1]) then value[..max - 1]
    else value[..max]
  }

  // ---- Choosing recipients ----

  /** The first candidate with this id, if the channel allows it. */
  function CandidateFor(input: Input, id: nat, channel: Option<Channel>, i: nat): (r: Option<Candidate>)
    requires i <= |input.candidates|
    ensures r.Some? ==> r.value in input.candidates && r.value.id == id
    ensures r.Some? ==> channel.Some? && channel.value in input.speakable && channel.value in r.value.channels
    decreases |input.candidates| - i
  {
    if i == |input.candidates| then None
    else if input.candidates[i].id != id then CandidateFor(input, id, channel, i + 1)
    else if channel.Some? && channel.value in input.speakable && channel.value in input.candidates[i].channels
    then Some(input.candidates[i]) else None
  }

  function UserIds(selected: seq<Candidate>): set<UserId> { set c | c in selected :: c.userId }

  ghost predicate Recipient(decision: Decision, input: Input, targets: set<UserId>, c: Candidate) {
    && c in input.candidates && c.userId in targets
    && decision.channel.Some? && decision.channel.value in input.speakable && decision.channel.value in c.channels
    && c.id in decision.mentionIds
  }

  /** Whom the decision's `k`-th mention asks for, if they may be mentioned. */
  function Asked(decision: Decision, input: Input, targets: set<UserId>, k: nat): set<UserId>
    requires k < |decision.mentionIds|
  {
    var candidate := CandidateFor(input, decision.mentionIds[k], decision.channel, 0);
    if candidate.Some? && candidate.value.userId in targets then {candidate.value.userId} else {}
  }

  /** The recipients a decision asks for: known, allowed, each once, at most eight. */
  function Chosen(decision: Decision, input: Input, targets: set<UserId>, n: nat): (selected: seq<Candidate>)
    requires n <= |decision.mentionIds|
    ensures |selected| <= CHAT_MAX_MENTION_RECIPIENTS
    ensures forall c :: c in selected ==> Recipient(decision, input, targets, c)
    ensures forall i, j :: 0 <= i < j < |selected| ==> selected[i].userId != selected[j].userId
    ensures |selected| < CHAT_MAX_MENTION_RECIPIENTS ==>
              forall k :: 0 <= k < n ==> Asked(decision, input, targets, k) <= UserIds(selected)
  {
    if n == 0 then []
    else
      var before := Chosen(decision, input, targets, n - 1);
      var candidate := CandidateFor(input, decision.mentionIds[n - 1], decision.channel, 0);
      if |before| == CHAT_MAX_MENTION_RECIPIENTS || candidate.None? || candidate.value.userId !in targets
         || candidate.value.userId in UserIds(before)
      then before
      else
        assert forall i :: 0 <= i < |before| ==> before[i] in before;
        assert UserIds(before + [candidate.value]) == UserIds(before) + {candidate.value.userId};
        before + [candidate.value]
  }

  method ChooseRecipients(decision: Decision, input: Input, targets: set<UserId>) returns (selected: seq<Candidate>)
    ensures selected == Chosen(decision, input, targets, |decision.mentionIds|)
  {
    selected := [];
    var seen: set<UserId> := {};
    for i := 0 to |decision.mentionIds|
      invariant selected == Chosen(decision, input, targets, i) && seen == UserIds(selected)
      invariant |selected| < CHAT_MAX_MENTION_RECIPIENTS
    {
      var candidate := CandidateFor(input, decision.mentionIds[i], decision.channel, 0);
      if candidate.Some? && candidate.value.userId in targets && candidate.value.userId !in seen {
        seen := seen + {candidate.value.userId};
        selected := selected + [candidate.value];
        if |selected| == CHAT_MAX_MENTION_RECIPIENTS {
          FullStays(decision, input, targets, i + 1, |decision.mentionIds|);
          return;
        }
      }
    }
  }

  lemma {:induction false} FullStays(decision: Decision, input: Input, targets: set<UserId>, n: nat, m: nat)
    requires n <= m <= |decision.mentionIds| && |Chosen(decision, input, targets, n)| == CHAT_MAX_MENTION_RECIPIENTS
    ensures Chosen(decision, input, targets, m) == Chosen(decision, input, targets, n)
    decreases m
  {
    if n < m { FullStays(decision, input, targets, n, m - 1); }
  }

  // ---- The prefix ----

  function Token(c: Candidate): Text { [AT] + c.displayName }

  /** The recipients' tokens, a space between two. */
  function Prefix(selected: seq<Candidate>): Text {
    if selected == [] then []
    else if |selected| == 1 then Token(selected[0])
    else Prefix(selected[..|selected| - 1]) + [SPACE] + Token(selected[|selected| - 1])
  }

  /** Where the k-th token starts. */
  function TokenStart(selected: seq<Candidate>, k: nat): nat
    requires k <= |selected|
  {
    if k == 0 then 0 else TokenStart(selected, k - 1) + |Token(selected[k - 1])| + 1
  }

  lemma {:induction false} PrefixLength(selected: seq<Candidate>)
    requires selected != []
    ensures |Prefix(selected)| + 1 == TokenStart(selected, |selected|)
    decreases |selected|
  {
    if |selected| > 1 {
      var init := selected[..|selected| - 1];
      PrefixLength(init);
      TokenStartOfInit(selected, |init|);
    }
  }

  lemma {:induction false} TokenStartOfInit(selected: seq<Candidate>, k: nat)
    requires selected != [] && k < |selected|
    ensures TokenStart(selected[..|selected| - 1], k) == TokenStart(selected, k)
  {
    if k > 0 { TokenStartOfInit(selected, k - 1); }
  }

  /** Each token stands in the prefix where the running start says. */
  lemma {:induction false} TokenInPrefix(selected: seq<Candidate>, k: nat)
    requires k < |selected|
    ensures TokenStart(selected, k) + |Token(selected[k])| <= |Prefix(selected)|
    ensures Prefix(selected)[TokenStart(selected, k)..TokenStart(selected, k) + |Token(selected[k])|] == Token(selected[k])
    decreases |selected|
  {
    if |selected| > 1 {
      var init := selected[..|selected| - 1];
      PrefixLength(init);
      if k < |init| {
        TokenInPrefix(init, k);
        TokenStartOfInit(selected, k);
        var (a, b) := (TokenStart(selected, k), TokenStart(selected, k) + |Token(selected[k])|);
        assert Prefix(selected)[a..b] == Prefix(init)[a..b];
      } else {
        TokenStartOfInit(selected, |init|);
        assert Prefix(selected)[TokenStart(selected, k)..] == Token(selected[k]);
      }
    }
  }

  /** The prefix fits, with its separator when speech follows. */
  predicate FitsWith(selected: seq<Candidate>, speech: Text) {
    |Prefix(selected)| + (if speech != [] then 1 else 0) <= CHAT_MAX_TEXT_LENGTH
  }

  /** The longest run of first recipients that fits. */
  ghost predicate IsLongestFit(chosen: seq<Candidate>, speech: Text, k: nat) {
    && k <= |chosen| && (k > 0 ==> FitsWith(chosen[..k], speech))
    && forall j :: k < j <= |chosen| ==> !FitsWith(chosen[..j], speech)
  }

  function Fitting(chosen: seq<Candidate>, speech: Text): (selected: seq<Candidate>) {
    if chosen == [] || FitsWith(chosen, speech) then chosen else Fitting(chosen[..|chosen| - 1], speech)
  }

  lemma {:induction false} FittingIsLongest(chosen: seq<Candidate>, speech: Text)
    ensures Fitting(chosen, speech) <= chosen && IsLongestFit(chosen, speech, |Fitting(chosen, speech)|)
    decreases |chosen|
  {
    hide FitsWith;
    assert chosen[..|chosen|] == chosen;
    if chosen != [] && !FitsWith(chosen, speech) {
      var fewer := chosen[..|chosen| - 1];
      FittingIsLongest(fewer, speech);
      assert forall j :: 0 <= j <= |fewer| ==> fewer[..j] == chosen[..j];
    }
  }

  method DropUntilFits(chosen: seq<Candidate>, speech: Text) returns (selected: seq<Candidate>)
    ensures selected == Fitting(chosen, speech)
  {
    selected := chosen;
    while |selected| > 0
      invariant Fitting(selected, speech) == Fitting(chosen, speech)
    {
      if FitsWith(selected, speech) { break; }
      selected := selected[..|selected| - 1];
    }
  }

  // ---- The message ----

  function Speech(decision: Decision): Text {
    if decision.say.Some? then TruncateUtf16(Trim(decision.say.value), MAX_SPEECH) else []
  }

  function Remaining(prefix: Text, speech: Text): Text {
    TruncateUtf16(speech, CHAT_MAX_TEXT_LENGTH - |prefix| - (if prefix != [] && speech != [] then 1 else 0))
  }

  function Joined(prefix: Text, remaining: Text): Text {
    if prefix == [] then remaining else if remaining == [] then prefix else prefix + [SPACE] + remaining
  }

  function TokenMention(selected: seq<Candidate>, k: nat): ChatMention
    requires k < |selected|
  {
    ChatMention(selected[k].userId, TokenStart(selected, k), |Token(selected[k])|)
  }

  /** The recipients a message goes to: as many of the accepted ones as fit. */
  function Addressed(decision: Decision, input: Input, targets: set<UserId>): seq<Candidate> {
    Fitting(Chosen(decision, input, targets, |decision.mentionIds|), Speech(decision))
  }

  /** The text of a message to these recipients. */
  function Message(selected: seq<Candidate>, speech: Text): Text {
    Joined(Prefix(selected), Remaining(Prefix(selected), speech))
  }

  function TokenMentions(selected: seq<Candidate>): seq<ChatMention> {
    seq(|selected|, k requires 0 <= k < |selected| => TokenMention(selected, k))
  }

  /** The message says exactly what was decided, as far as it fits, and nothing
      when nothing is left of it. */
  method ComposeBotChatContent(decision: Decision, input: Input, targets: set<UserId>) returns (content: Option<ChatContent>)
    ensures var selected := Addressed(decision, input, targets);
            var text := Message(selected, Speech(decision));
            content == if text == [] then None else Some(ChatContent(text, TokenMentions(selected)))
  {
    hide Prefix, Chosen, Trim, Fitting;
    var chosen := ChooseRecipients(decision, input, targets);
    var speech := Speech(decision);
    var selected := DropUntilFits(chosen, speech);
    var prefix := Prefix(selected);
    var remaining := Remaining(prefix, speech);
    if prefix == [] && remaining == [] { return None; }
    var text := Joined(prefix, remaining);
    var mentions: seq<ChatMention> := [];
    var start := 0;
    for k := 0 to |selected|
      invariant |mentions| == k && start == TokenStart(selected, k)
      invariant forall j :: 0 <= j < k ==> mentions[j] == TokenMention(selected, j)
    {
      var token := Token(selected[k]);
      mentions := mentions + [ChatMention(selected[k].userId, start, |token|)];
      start := start + |token| + 1;
    }
    assert mentions == TokenMentions(selected) && selected == Addressed(decision, input, targets);
    return Some(ChatContent(text, mentions));
  }

  // ---- It always validates ----

  lemma MessageIsShort(selected: seq<Candidate>, speech: Text)
    requires selected == [] || FitsWith(selected, speech)
    ensures |Message(selected, speech)| <= CHAT_MAX_TEXT_LENGTH && Prefix(selected) <= Message(selected, speech)
  {
    var prefix := Prefix(selected);
    if selected == [] { assert prefix == []; }
  }

  /** Whom a message goes to: people the decision names, who may be mentioned
      now, each once and at most eight. */
  lemma AddressedAreChosen(decision: Decision, input: Input, targets: set<UserId>)
    ensures var selected := Addressed(decision, input, targets);
            && |selected| <= CHAT_MAX_MENTION_RECIPIENTS
            && (selected == [] || FitsWith(selected, Speech(decision)))
            && forall k :: 0 <= k < |selected| ==> Recipient(decision, input, targets, selected[k])
  {
    hide FitsWith, Recipient, Fitting, Speech;
    var chosen := Chosen(decision, input, targets, |decision.mentionIds|);
    var selected := Addressed(decision, input, targets);
    FittingIsLongest(chosen, Speech(decision));
    assert selected == chosen[..|selected|];
    forall k | 0 <= k < |selected| ensures Recipient(decision, input, targets, selected[k]) {
      assert chosen[k] in chosen && selected[k] == chosen[k];
    }
  }

  /** Every mention spells '@' and the candidate's name. */
  lemma MentionSpellsToken(selected: seq<Candidate>, text: Text, k: nat)
    requires Prefix(selected) <= text && k < |selected|
    ensures InText(text, TokenMention(selected, k)) && Covered(text, TokenMention(selected, k)) == Token(selected[k])
  {
    hide Prefix, TokenStart, Token;
    TokenInPrefix(selected, k);
    assert text[..|Prefix(selected)|] == Prefix(selected);
    SliceOfPrefix(text, |Prefix(selected)|, TokenStart(selected, k), TokenStart(selected, k) + |Token(selected[k])|);
    TokenIsSomething(selected[k]);
  }

  lemma TokenIsSomething(c: Candidate)
    ensures |Token(c)| > 0
  {
  }

  lemma {:induction false} TokensFollow(selected: seq<Candidate>, i: nat, j: nat)
    requires i < j < |selected|
    ensures TokenStart(selected, i) + |Token(selected[i])| < TokenStart(selected, j)
    decreases j
  {
    if i + 1 < j { TokensFollow(selected, i, j - 1); }
  }

  lemma {:induction false} FewUsers(selected: seq<Candidate>, mentions: seq<ChatMention>)
    requires |mentions| == |selected| && forall k :: 0 <= k < |selected| ==> mentions[k].userId == selected[k].userId
    ensures |Recipients(mentions)| <= |selected|
    decreases |selected|
  {
    if selected == [] {
      assert Recipients(mentions) == {};
    } else {
      var n := |selected| - 1;
      FewUsers(selected[..n], mentions[..n]);
      assert mentions == mentions[..n] + [mentions[n]];
      assert Recipients(mentions) == Recipients(mentions[..n]) + {mentions[n].userId};
    }
  }

  /** What a bot composes passes the engine's check of mentions, for targets
      that are the people it may mention now under the names it knew. */
  lemma BotChatAlwaysValidates(s: GameState.GameState, actor: UserId, decision: Decision, input: Input, targets: set<UserId>)
    requires decision.channel.Some?
    requires forall u :: u in targets ==> GameChat.Known(s, actor, decision.channel.value, u)
    requires forall c :: c in input.candidates && c.userId in s.players ==> s.players[c.userId].displayName == c.displayName
    ensures var selected := Addressed(decision, input, targets);
            var text := Message(selected, Speech(decision));
            |text| <= CHAT_MAX_TEXT_LENGTH && GameChat.ValidMentions(s, actor, decision.channel.value, text, TokenMentions(selected))
  {
    hide Chosen, Prefix, GameChat.Known, FitsWith, Joined, Message, Addressed, Speech;
    var selected := Addressed(decision, input, targets);
    var text, mentions := Message(selected, Speech(decision)), TokenMentions(selected);
    AddressedAreChosen(decision, input, targets);
    MessageIsShort(selected, Speech(decision));
    FewUsers(selected, mentions);
    forall m | m in mentions ensures GameChat.NamesKnown(s, actor, decision.channel.value, text, m) {
      var k :| 0 <= k < |selected| && mentions[k] == m;
      MentionSpellsToken(selected, text, k);
      assert Recipient(decision, input, targets, selected[k]);
      KnownIsMember(s, actor, decision.channel.value, selected[k].userId);
    }
    forall i, j | 0 <= i < j < |mentions| ensures Apart(mentions[i], mentions[j]) {
      TokensFollow(selected, i, j);
    }
  }

  lemma KnownIsMember(s: GameState.GameState, actor: UserId, channel: Channel, u: UserId)
    ensures GameChat.Known(s, actor, channel, u) ==> u in s.players
  {
  }

  // ---- Whom it addresses, and how ----

  /** The first candidate of this id, who may be mentioned in the channel. */
  ghost predicate MayBeAsked(input: Input, channel: Option<Channel>, c: Candidate) {
    && (exists i :: 0 <= i < |input.candidates| && input.candidates[i] == c && forall j :: 0 <= j < i ==> input.candidates[j].id != c.id)
    && channel.Some? && channel.value in input.speakable && channel.value in c.channels
  }

  lemma {:induction false} CandidateIs(input: Input, id: nat, channel: Option<Channel>, from: nat, i: nat)
    requires from <= i < |input.candidates| && input.candidates[i].id == id
    requires forall j :: from <= j < i ==> input.candidates[j].id != id
    ensures CandidateFor(input, id, channel, from)
         == if channel.Some? && channel.value in input.speakable && channel.value in input.candidates[i].channels then Some(input.candidates[i]) else None
    decreases i - from
  {
    if from < i { CandidateIs(input, id, channel, from + 1, i); }
  }

  /** Everybody the decision names who may be mentioned now is among the chosen, unless
      eight others came first. */
  lemma EverybodyNamedIsChosen(decision: Decision, input: Input, targets: set<UserId>, k: nat, c: Candidate)
    requires k < |decision.mentionIds| && decision.mentionIds[k] == c.id
    requires MayBeAsked(input, decision.channel, c) && c.userId in targets
    ensures var chosen := Chosen(decision, input, targets, |decision.mentionIds|);
            |chosen| == 8 || exists i :: 0 <= i < |chosen| && chosen[i].userId == c.userId
  {
    hide Chosen;
    var i :| 0 <= i < |input.candidates| && input.candidates[i] == c && forall j :: 0 <= j < i ==> input.candidates[j].id != c.id;
    CandidateIs(input, c.id, decision.channel, 0, i);
    var chosen := Chosen(decision, input, targets, |decision.mentionIds|);
    if |chosen| < 8 {
      assert Asked(decision, input, targets, k) == {c.userId};
      assert c.userId in UserIds(chosen);
      var d :| d in chosen && d.userId == c.userId;
    }
  }

  /** They are chosen in the order they are named in: naming more people adds at the end. */
  lemma {:induction false} NamingMoreAdds(decision: Decision, input: Input, targets: set<UserId>, n: nat, m: nat)
    requires n <= m <= |decision.mentionIds|
    ensures Chosen(decision, input, targets, n) <= Chosen(decision, input, targets, m)
    decreases m
  {
    if n < m { NamingMoreAdds(decision, input, targets, n, m - 1); }
  }

  /** The first token opens the message; each later one stands behind the one before and
      one space. */
  lemma TokensStandTogether(selected: seq<Candidate>, text: Text, k: nat)
    requires Prefix(selected) <= text && k < |selected|
    ensures TokenMention(selected, 0).start == 0
    ensures var m := TokenMention(selected, k);
            && InText(text, m) && Covered(text, m) == [AT] + selected[k].displayName
            && (k + 1 < |selected| ==> End(m) < |text| && text[End(m)] == SPACE && TokenMention(selected, k + 1).start == End(m) + 1)
            && (k + 1 == |selected| ==> |Prefix(selected)| == End(m))
  {
    hide Prefix;
    MentionSpellsToken(selected, text, k);
    PrefixLength(selected);
    if k + 1 < |selected| {
      MentionSpellsToken(selected, text, k + 1);
      SpaceBetween(selected, k);
      TokenInPrefix(selected, k + 1);
      assert text[End(TokenMention(selected, k))] == Prefix(selected)[End(TokenMention(selected, k))];
    }
  }

  lemma {:induction false} SpaceBetween(selected: seq<Candidate>, k: nat)
    requires k + 1 < |selected|
    ensures var end := TokenStart(selected, k) + |Token(selected[k])|; end < |Prefix(selected)| && Prefix(selected)[end] == SPACE
    decreases |selected|
  {
    var init := selected[..|selected| - 1];
    PrefixLength(init);
    TokenStartOfInit(selected, k);
    if k + 1 < |init| {
      SpaceBetween(init, k);
    } else {
      TokenStartOfInit(selected, |init|);
    }
  }

  /** Behind the tokens, and one space, stands the speech: what trimming leaves of it, cut
      to 300 and to what is left of 500, each cut giving up at most one more unit. */
  lemma TheMessageSays(decision: Decision, selected: seq<Candidate>, cut: Text)
    requires selected == [] || FitsWith(selected, Speech(decision))
    requires cut == Remaining(Prefix(selected), Speech(decision))
    ensures var speech := if decision.say.Some? then Trim(decision.say.value) else [];
            && Speech(decision) <= speech && (if |speech| <= 300 then Speech(decision) == speech else 299 <= |Speech(decision)| <= 300)
    ensures var (text, prefix) := (Message(selected, Speech(decision)), Prefix(selected));
            && text == prefix + (if prefix != [] && cut != [] then [SPACE] else []) + cut
            && cut <= Speech(decision) && |text| <= 500
            && (cut == Speech(decision) || 499 <= |text| || (prefix != [] && cut == [] && 498 <= |text|))
  {
    hide Prefix, Trim;
    if selected == [] { NothingBefore(); }
  }

  lemma NothingBefore()
    ensures Prefix([]) == []
  {
  }
}
