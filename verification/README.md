# Werewolf: proofs about the engine, its delivery and its clients

A Dafny model of the parts of the werewolf game whose correctness is hardest to
see from the code, with proofs of what they are meant to guarantee. Run
`dafny verify dfyconfig.toml` to check all of it.

The model has four parts.

1. **The game engine** (`packages/game-engine`). A game is a state machine over
   `GameState`: players come and go, the owner starts it, players send commands,
   phases are resolved. The night is a pipeline of stages that update one
   `NightContext` in place; a class of that name does the same here and every
   stage is proved equal to a function from the facts before it to the facts
   after it. `Runs` puts every step together and proves what holds in all
   reachable states: roles and factions, the phase clock, which votes count, and
   that every game ends. `Composer` is the search for a valid deal, `Commands`
   the validation of a command and the list of those it would accept, and
   `Projection` what one viewer is shown.
2. **Delivery and commits.** Global chat and the game's events are modelled as
   protocols whose steps are the segments between two awaits, interleaved
   arbitrarily. `ChatDelivery` follows a message from the post queue through the
   table, the hub and the socket to the client's store; `GameDelivery` shows that
   every socket of a game is brought up to date, and `GameAudience` whom an event reaches;
   `GameLock` and `GameStore` show that commits are serialisable; `BotScheduler`
   bounds the bots' turns.
3. **Text with ranges.** Draft edits, the mentions they keep or drop, selecting a
   candidate, rendering, normalising, and the messages bots compose. Text is a
   list of UTF-16 code units, which is what lengths and ranges count.
4. **Read state.** What a reader has read, merged across tabs, kept in storage.

How the pieces fit: a class method that updates fields or loops over them is
proved against a function of the same behaviour (`ensures View() == Stage(...)`),
and the lemmas are about those functions, alone and along whole runs. The modules
named `...Laws`, and `NightActors`, `Verdicts` and `GameAudience`, say what those
functions come to in the words of the rules: on roles, statuses, stored choices and
the dice, without the functions themselves.

Modelling choices that hold throughout:

- Ids are natural numbers; all the source needs of them is equality and one
  total order. Chat ids count up from 1 without gaps, since the key is handed
  out by a committed insert.
- Random draws are arbitrary values within their range, passed in as `Rolls` or
  `Dice`, so every result holds for every draw.
- Database transactions are atomic steps. A game's state is read in two queries,
  the game's row and then its players, and other commits may come between them.
- A composition that cannot be dealt is an exception in the source and the error
  `NoComposition` here.

## What the proofs found

- A reconnecting client is told that history is missing exactly when retention
  has taken messages it had not seen, or when it has just taken the last message
  it had seen; the second is a false alarm (`TruncatedMeansLost`, `FalseAlarm`).
- A client that is offered older messages may ask for them in vain: it gets some if and
  only if the table still keeps a message below the first one held, and otherwise goes
  on offering them (`OlderMessagesArrive`, `AskingInVain`).
- Collapsing a read state keeps a message unread, in every state, if and only if
  that message is not behind one of the viewer's own under the same id
  (`KeptUnreadExactlyWhen`). One message per id is enough, and the ids of both
  chats are table keys; the laws of merging need neither.
- A save can be lost by the pruning it triggers: exactly when a hundred games in
  the index are younger than the one saved, which takes a clock set back or a tie
  (`SaveJoins`, `SavedByAnEarlierClock`).
- A winner can be left alive outside the winning bloc: exactly the living lover, of
  another faction, of a dead member of the winning faction (`WinnersAreLeft`,
  `SomebodyIsLeftBehind`).
- The pack dealt is empty at five players with a serial killer, and only then
  (`PackIsStartingWolfCount`).
- The cult preset has no valid deal below nine players; the search comes back
  empty for every slot count (`NoCultBelowNine`).

## Model

| member | source | states |
|---|---|---|
| ChatDelivery.ClientHoldsContiguousStretch | apps/client/src/api/chat-state.ts:32-158 | after any interleaving of posts, publishes, window reads, sends, drops, reconnects and older pages, the client holds exactly a stretch of the log ending at its cursor, strictly increasing and without holes, and offers older pages exactly when its stretch starts above 1 and above the retention floor it was last told of |
| ChatDelivery.SurvivorsStayInPlace | apps/client/src/api/chat-state.ts:32-58 | whatever step comes next, every message still held keeps its logical index in the list |
| ChatDelivery.QuietClientIsUpToDate | apps/server/src/live/global-chat-hub.ts:62-101 | a live client that has received everything sent, with no post under way, holds the end of the log: nothing was lost while its window was being read |
| ChatDelivery.CursorNeverGoesBack | apps/client/src/api/chat-live.ts:65-84 | no step moves a client's cursor back |
| ChatDelivery.StepKeepsInv | apps/server/src/routes/chat.ts:31-82 | each segment of the protocol keeps the invariant behind those results |
| ChatDelivery.OlderMessagesArrive | apps/client/src/api/chat-state.ts:149-158 | a request for older messages, answered and taken at once, lowers the first message held by exactly a page, or to the floor the client knows or the table keeps, as long as the table keeps anything below it; otherwise nothing changes and older messages are still on offer |
| ChatDelivery.AskingInVain | packages/db/src/global-chat.ts:70-78 | a run of six steps to a client that is offered older messages and gets none |
| ChatState.MergeOfSlices | apps/client/src/api/chat-state.ts:32-58 | merging two stretches of the log gives the stretch above the floor, cut only at the front by the cap, at the old logical indexes |
| ChatState.MessageKeepsContiguous | apps/client/src/api/chat-state.ts:136-144 | the next live message extends the stretch by one |
| ChatState.FullStoreForgetsItsOldest | apps/client/src/api/chat-state.ts:136-144 | a live message costs the oldest one exactly when the store is full, and the store then says that history is missing |
| ChatState.MissingHistoryIsTold | apps/client/src/api/chat-state.ts:88-107 | exactly when the store says that history is missing after a merge |
| ChatState.PageKeepsContiguous | apps/client/src/api/chat-state.ts:149-158 | an older page, also one that arrives late, leaves a stretch with the same end, and where exactly it then starts |
| ChatState.HistoryKeepsContiguous | apps/client/src/api/chat-state.ts:111-132 | a history window leaves a stretch that ends at the window's cursor, and where exactly it then starts: messages are only lost to the floor or the cap |
| GlobalChatHub.FlushWithoutLoss | apps/server/src/live/global-chat-hub.ts:74-90 | a new subscriber gets its window and then exactly the published messages after it, in order, each once |
| GlobalChatHub.Hub.WindowRead | apps/server/src/live/global-chat-hub.ts:78-93 | the history frame, the flush and the flags, for a subscriber that may have closed meanwhile |
| GlobalChatHub.Hub.Publish | apps/server/src/live/global-chat-hub.ts:96-101 | every subscriber is sent or buffers the message, and nobody else is touched |
| GlobalChatRepository.Repository.Append | packages/db/src/global-chat.ts:163-188 | the log grows by one message and the table holds exactly the messages of the log that are among its last thousand |
| GlobalChatRepository.Repository.ListBefore | packages/db/src/global-chat.ts:70-78 | the rows of the table right below an id, in order, a full page of them or all there are, as a stretch of the log |
| GlobalChatRepository.TablePage | packages/db/src/global-chat.ts:70-78 | on the page and the table alone: the page holds rows below the id, and a row below the id is missing only if the page is full and the row lies before all of it |
| GlobalChatRepository.OlderPageReaches | packages/db/src/global-chat.ts:70-78 | when anything older is retained the page is not empty, ends right below the id, and is short only when it starts at the oldest |
| GlobalChatRepository.Repository.ListSubscriptionWindow | packages/db/src/global-chat.ts:80-161 | the window of every combination of cursors, as a stretch of the log |
| GlobalChatRepository.WindowRunsOn | packages/db/src/global-chat.ts:80-161 | a window runs on from the delivery cursor, or starts at the oldest retained message when the cursor has fallen behind it, and always ends at the newest |
| GlobalChatRepository.WindowReachesBack | packages/db/src/global-chat.ts:80-161 | a window holds exactly the retained messages after the delivery cursor, or those of the last page, or those from a page before the read cursor on |
| GlobalChatRepository.TruncatedMeansLost | packages/db/src/global-chat.ts:114-137 | the exact condition under which the window is marked truncated |
| GlobalChatRepository.FalseAlarm | packages/db/src/global-chat.ts:118-122 | a window marked truncated although it holds every message the client has not seen |
| Victory.BlocsAreComponents | packages/game-engine/src/resolution/victory.ts:65-88 | a bloc is exactly a connected component of "same faction or lovers" over the living |
| Victory.BlocsPartition | packages/game-engine/src/resolution/victory.ts:65-88 | two blocs are the same or have nobody in common, and everyone alive is in one |
| Victory.GetBlocs | packages/game-engine/src/resolution/victory.ts:65-88 | the scan that grows blocs finds each component once and nothing else |
| Victory.GrowBloc | packages/game-engine/src/resolution/victory.ts:71-85 | growing from one player until a scan adds nobody gives the whole component |
| Victory.IsDoomed | packages/game-engine/src/resolution/victory.ts:90-99 | a bloc without contesters is doomed when some other bloc holds at least half of the living, or when it is the only one and has no villager |
| Victory.DecideVictory | packages/game-engine/src/resolution/victory.ts:11-34 | the verdict, with every branch of the source |
| Victory.TwoHalves | packages/game-engine/src/resolution/victory.ts:90-99 | two blocs with at least half of the living each hold exactly half and there is no third |
| Victory.DrawnExactlyWhen | packages/game-engine/src/resolution/victory.ts:11-34 | before the night limit a game with survivors is drawn if and only if one bloc is left with no villager and no contester, or two blocs without contesters hold half each |
| Victory.SurvivorsAfterFinish | packages/game-engine/src/resolution/victory.ts:36-56 | finishing off the losers leaves exactly the living winners |
| Victory.WinnersAreLeft | packages/game-engine/src/resolution/victory.ts:36-56 | when a faction is named, those left alive are a non-empty set of winners, and those of them outside the one bloc that was not doomed are exactly the living lovers, of another faction, of dead members of the winning faction |
| Victory.SomebodyIsLeftBehind | packages/game-engine/src/resolution/victory.ts:115-123 | a state in which the village wins and a bonded sorcerer is left alive outside its bloc |
| Victory.WinnersAreClosedUnderTheBond | packages/game-engine/src/resolution/victory.ts:115-140 | the winners are the faction and whoever is bonded to it, and a winner's lover is a winner |
| Verdicts.TheLoversAre | packages/game-engine/src/resolution/link.ts:6-11 | the lovers are the pair stored with the cupid, alive or dead |
| Verdicts.WhoStandsTogether | packages/game-engine/src/resolution/victory.ts:142-149 | the living stand together directly exactly when they are of one faction or are the lovers, either way round |
| Verdicts.DoomedExactlyWhen | packages/game-engine/src/resolution/victory.ts:58-99 | by role and state: a bloc is doomed if and only if no hunter, serial killer, werewolf, cult leader or mayor with the power unused lives in it, and either another bloc has half of the living or it is alone and without a villager |
| Verdicts.NobodyIsWonOver | packages/game-engine/src/resolution/victory.ts:11-34 | when a faction is named, every living player of those roles is connected with all the others and with a member of that faction, in the one bloc not doomed |
| Verdicts.TheyKeepItOpen | packages/game-engine/src/resolution/victory.ts:11-34 | before the night limit a game with one of them alive is not drawn, and with two of them not connected it is not over |
| Verdicts.TheVerdict | packages/game-engine/src/resolution/victory.ts:11-34 | who wins, in the order of the source, why, and when nobody does |
| NightIntents.FreezeNightIntents | packages/game-engine/src/resolution/night/freeze.ts:24-39 | for every action, the intents of the living who were offered it and stored a valid choice, in roster order, and no others |
| NightIntents.RealIntentIs | packages/game-engine/src/resolution/night/freeze.ts:60-96 | a real intent was stored by a living player who holds the role that owns the action, with a living target |
| NightIntents.OneRealIntent | packages/game-engine/src/resolution/night/freeze.ts:45-67 | with single holders, an action other than the pack's attack has at most one intent that is not mimicked, and it is the one found |
| NightIntents.ResolveNightLocations | packages/game-engine/src/resolution/night/locations.ts:16-37 | everyone alive is in exactly one house: the one their own walk leads to, else home |
| NightActors.ActingExactly | packages/game-engine/src/resolution/night/freeze.ts:24-96 | an action is really taken by this player on that one if and only if the player is the living holder of its role, has stored it in this phase and the target lives; a bond only on the first night and once |
| NightActors.WhereTheySleep | packages/game-engine/src/resolution/night/locations.ts:16-37 | by stored actions alone: who has set out, for real or drunk, is where they set out for, the pack at the house it hunts in, everyone else at home |
| NightActors.TheBallot | packages/game-engine/src/resolution/night/index.ts:111-117 | the pack hunts this player if and only if strictly the most of those entitled have named them |
| NightActors.BondingExactly | packages/game-engine/src/resolution/night/events.ts:236-268 | a pair is bonded if and only if a living, unlinked cupid has named it on the first night and both live |
| NightContext.NightContext.HunterStageInPlace | packages/game-engine/src/resolution/night/stages/retaliation.ts:8-31 | each attack on a hunter's house may be repelled at the cost of one attacker: a pack member or the visiting killer |
| NightContext.NightContext.ComputeHits | packages/game-engine/src/resolution/night/stages/hits.ts:15-42 | after the nested loops a player is hit exactly by the attackers whose unrepelled attack finds them in and does not excuse them; who that is, `NightLaws.WhoIsHit` says |
| NightContext.NightContext.ResolveHits | packages/game-engine/src/resolution/night/stages/conversions.ts:8-53 | the loop over the hits gives each victim not already dead its one fate, in whatever order |
| NightContext.NightContext.ResolveHouseAttacks | packages/game-engine/src/resolution/night/attacks.ts:28-45 | the stages in order, on one context, come to the composition of their functions |
| NightPipeline.ClashTakesOne | packages/game-engine/src/resolution/night/stages/clashes.ts:8-28 | the clash costs at most one life, the visiting serial killer's or a pack member's who spends the night in the visited house, and changes nothing else |
| NightPipeline.DuelDecidesTheAlpha | packages/game-engine/src/resolution/night/stages/clashes.ts:38-61 | a duel is between the searching lone wolf and a living alpha in the searched house, exactly one of them falls, and the wolf ascends exactly when it is the alpha; without one nobody falls or ascends |
| NightPipeline.HitsAreTakenAway | packages/game-engine/src/resolution/night/stages/substitution.ts:9-22 | a hit disappears only for the shielded, or for the guardian's ward at the price of the guardian's life, and is otherwise unchanged |
| NightPipeline.HitsAreNotAdded | packages/game-engine/src/resolution/night/stages/shield.ts:7-14 | the shield and the guardian hit nobody |
| NightPipeline.TurnsHaveTheirReasons | packages/game-engine/src/resolution/night/stages/conversions.ts:8-75 | over the whole pipeline, who can be turned and why: the cursed by the pack alone, by the alpha only the pack's own target of the village but not the seer, by the cult only the living who are not immune, and a living lone wolf when nobody ascended |
| NightPipeline.OnlyAVisitingHarlotIsExposed | packages/game-engine/src/resolution/night/stages/exposure.ts:9-19 | exposure kills only a harlot in the house of a wolf who is in |
| NightPipeline.NoAlphaIsLeft | packages/game-engine/src/resolution/night/stages/ascension.ts:8-19 | a lone wolf joins the pack only when every living alpha has died in the night and nobody ascended |
| NightPipeline.OnlyTheLivingDie | packages/game-engine/src/resolution/night/attacks.ts:28-45 | every recorded death is of a living player |
| NightPipeline.HitsLeftSpareThePack | packages/game-engine/src/resolution/night/stages/hits.ts:15-42 | nobody of the pack is ever hit, and everyone hit is alive |
| NightPipeline.TheShieldHolds | packages/game-engine/src/resolution/night/stages/substitution.ts:9-22 | a shielded player is not hit, and no guardian dies for a shielded protegee |
| NightPipeline.TheShieldedAreNotTurned | packages/game-engine/src/resolution/night/stages/conversions.ts:8-75 | a shielded player is not turned by the cursed, the alpha or the cult |
| NightPipeline.EachHitHasOneOutcome | packages/game-engine/src/resolution/night/stages/conversions.ts:8-53 | a hit that is left, on someone not already dead, has exactly one of death, the cursed turn and the alpha's turn |
| NightLaws.TheHunterStrikesBack | packages/game-engine/src/resolution/night/stages/retaliation.ts:8-31 | an attack is repelled if and only if it is at a living hunter's and the roll is the hunter's, and it then costs the pack or the killer a life |
| NightLaws.TheKillerClashes | packages/game-engine/src/resolution/night/stages/clashes.ts:8-28 | a killer who finds the pack in the visited house dies, or one of those found does, by the roll |
| NightLaws.TheDuel | packages/game-engine/src/resolution/night/stages/clashes.ts:38-61 | when the lone wolf and the alpha fight, who falls and who leads, and that nothing else changes |
| NightLaws.WhoIsHit | packages/game-engine/src/resolution/night/stages/hits.ts:15-42 | a player is hit by the pack, and by the killer, if and only if they live in the attacked house outside the pack, the attack is not repelled and none of the excuses is theirs |
| NightLaws.TheShield | packages/game-engine/src/resolution/night/stages/shield.ts:7-14 | the shielded player is the one the priest protects |
| NightLaws.TheWard | packages/game-engine/src/resolution/night/stages/substitution.ts:9-18 | whose life the guardian guards |
| NightLaws.TheGuardianDies | packages/game-engine/src/resolution/night/stages/substitution.ts:9-22 | for a ward who would be hit and is not shielded the guardian dies |
| NightLaws.WhoseHitsAreLeft | packages/game-engine/src/resolution/night/stages/substitution.ts:9-22 | a hit is left if and only if it lands on somebody neither shielded nor the ward |
| NightLaws.TheirFate | packages/game-engine/src/resolution/night/stages/conversions.ts:8-53 | which of the hit are turned, and that all others die, and of what |
| NightLaws.ThePackStrikes | packages/game-engine/src/resolution/night/stages/hits.ts:22-39 | a player at home in the hunted house who is not of the pack, a hunter, a lone wolf, shielded or a ward dies or is turned |
| NightLaws.TheKillerStrikes | packages/game-engine/src/resolution/night/stages/hits.ts:22-39 | a player in the visited house who is not of the pack, the killer, shielded or a ward dies, unless a hunter lives there |
| NightLaws.TheCultConverts | packages/game-engine/src/resolution/night/stages/conversions.ts:55-75 | the cult turns this player if and only if its leader visits them and they are alive by then, not shielded, not of the wolves, no killer and no hunter |
| NightLaws.TheHarlotIsExposed | packages/game-engine/src/resolution/night/stages/exposure.ts:9-19 | a harlot who visits a wolf at home dies |
| NightLaws.TheLoneWolfJoins | packages/game-engine/src/resolution/night/stages/ascension.ts:8-19 | the lone wolf joins the pack if and only if they live, nobody has taken the alpha's place and no alpha lives |
| NightLaws.TheLoversDie | packages/game-engine/src/resolution/night/events.ts:223-234 | a living lover of the dead of the night dies too, and nobody else besides |
| NightResolution.ResolveWolfBallot | packages/game-engine/src/resolution/night/index.ts:111-117 | the target with strictly the most votes of the pack, or nobody |
| NightResolution.WolfTargetIsAlive | packages/game-engine/src/resolution/night/index.ts:111-117 | the pack hunts the living |
| NightResolution.CommitNight | packages/game-engine/src/resolution/night/events.ts:178-194 | the patches make every player what the outcome says: deaths, then conversions, then the ascension |
| NightResolution.FormLink | packages/game-engine/src/resolution/night/events.ts:236-268 | the pair a real, still unlinked cupid chose is stored with the cupid, and nothing else is changed |
| NightResolution.RoleStatePatches | packages/game-engine/src/resolution/night/events.ts:202-219 | what a role remembers of the night is patched and nothing else |
| NightResolution.ResolveNight | packages/game-engine/src/resolution/night/index.ts:23-109 | the transition leads to the morning the outcome says, quiet nights counted, losers finished off, the next phase opened, and the channel joins are exactly those of the turned |
| NightLaws.TheMorningAfter | packages/game-engine/src/resolution/night/events.ts:178-194 | what the morning finds of every player: dead, turned by the last turn, or the new alpha, and otherwise as before but for what their role remembers |
| NightLaws.TheLastTurn | packages/game-engine/src/resolution/night/stages/conversions.ts:8-75 | which of several turns comes last |
| NightLaws.WhatIsRemembered | packages/game-engine/src/resolution/night/events.ts:202-268 | what the priest, the guardian and the cupid remember, and that nobody else's memory changes |
| NightLaws.WhoIsLetIn | packages/game-engine/src/resolution/night/events.ts:8-176 | who is let into a secret chat |
| NightLaws.TheNamedAreGone | packages/game-engine/src/resolution/night/index.ts:23-109 | from the stored votes to the morning: an unguarded player who stays in, is neither of the pack nor a hunter or lone wolf, and is named by strictly the most of the pack, has died or changed sides |
| NightOutcome.NightRemovesExactlyItsDead | packages/game-engine/src/resolution/night/index.ts:46-79 | a night that does not finish the game removes exactly its dead, all alive before, from the living |
| NightOutcome.NightSpendsFuel | packages/game-engine/src/resolution/night/index.ts:46-79 | five per living player plus the quiet nights left strictly decreases, and at most four quiet nights are on the clock |
| NightOutcome.NightKeepsSingleHolders | packages/game-engine/src/resolution/night/events.ts:178-194 | conversions and ascensions leave at most one living holder of each single-copy role |
| NightOutcome.NightKeepsFactions | packages/game-engine/src/resolution/night/events.ts:178-194 | whoever is turned has the faction of their new role |
| NightOutcome.NewcomersJoin | packages/game-engine/src/resolution/night/events.ts:8-176 | whoever ends the night in a secret chat they were not in has a join event for it |
| Tally.CountVotes | packages/game-engine/src/resolution/vote.ts:16-34 | the tally holds every target with its number of votes |
| Tally.UniqueWinner | packages/game-engine/src/resolution/vote.ts:16-34 | the entry alone at the top is the target with strictly more votes than any other, and a tie is nobody |
| Tally.PluralityIs | packages/game-engine/src/resolution/vote.ts:31-33 | only one target can lead, so the choice is determined |
| DayVote.CountIsVoters | packages/game-engine/src/resolution/vote.ts:16-34 | a target's count is the number of living players whose vote of this phase names it |
| DayVote.ResolveDayVote | packages/game-engine/src/resolution/vote.ts:13-216 | the transition leads to the dusk of whom the day has picked, with exactly its joins; whom that is and what becomes of them, `VoteLaws` says |
| DayVote.VoteRemovesExactlyItsDead | packages/game-engine/src/resolution/vote.ts:71-146 | a vote that does not finish the game takes exactly the selected player and their partner, or nobody |
| DayVote.VoteAddsNoFuel | packages/game-engine/src/resolution/vote.ts:147-215 | a vote never adds to the measure of the night and keeps the quiet nights in bounds |
| DayVote.VoteKeepsSingleHolders | packages/game-engine/src/resolution/vote.ts:155-179 | turning the orphaned lone wolf leaves at most one living holder of each single-copy role |
| VoteLaws.TheMayorDecides | packages/game-engine/src/resolution/vote.ts:39-56 | a living mayor who has used the power today decides: the target if alive, else nobody |
| VoteLaws.TheVotersDecide | packages/game-engine/src/resolution/vote.ts:16-56 | without one, the day picks this player if and only if they live and more of the living vote for them than for anybody else |
| VoteLaws.WhoDiesAtDusk | packages/game-engine/src/resolution/vote.ts:108-146 | the dead of the day are the picked player and their living lover, or nobody when the princess is spared |
| VoteLaws.TheDayTakes | packages/game-engine/src/resolution/vote.ts:71-215 | whom the day picks is dead at dusk, with their living lover, also when that ends the game; nobody else dies while it goes on, a princess is spared once, and the count of quiet nights starts over when somebody dies |
| VoteLaws.NobodyIsTaken | packages/game-engine/src/resolution/vote.ts:147-215 | nobody dies on a day that picks nobody, and the quiet nights go on counting |
| VoteLaws.TheVeteranWins | packages/game-engine/src/resolution/vote.ts:75-107 | a lynched veteran ends the game and has won it, with their lover |
| VoteLaws.TheOrphanJoins | packages/game-engine/src/resolution/vote.ts:147-179 | a lone wolf whom the day leaves without a living alpha is a werewolf and let in, and nobody else changes sides |
| Actions.GetActionSpecsFor | packages/game-engine/src/roles/action-spec.ts:31-48 | the actions offered to a player, each once, and no others; to whom each is offered, `CommandLaws.WhoMayAct` says |
| GameChat.ValidateChatMentions | packages/game-engine/src/commands/validate.ts:82-127 | accepted exactly when few enough people are named, every range spells a known label and no two overlap, in whatever order they come |
| MentionRanges.SortSorts | packages/game-engine/src/commands/validate.ts:96-105 | sorting keeps all mentions, adds none, puts them in order and does not change whether they are apart |
| MentionRanges.SortedRanges | apps/client/src/chat/mentions.ts:232-260 | checking neighbours of the sorted copy decides exactly whether all ranges are in the text and pairwise apart |
| Commands.ValidateCommand | packages/game-engine/src/commands/validate.ts:17-80 | the first error of the source's order for every command, or none |
| Commands.ValidateActionPayload | packages/game-engine/src/commands/validate.ts:129-161 | the errors of an action's payload, for every target shape |
| Commands.CommandTouchesOnlyItsSender | packages/game-engine/src/commands/apply.ts:7-156 | an accepted command changes nobody's record but its sender's, of that only this phase's row or, for a day action, the role's state, and only readiness moves the deadline, to the one that everybody's readiness afterwards decides |
| Commands.CommandDoesWhatItSays | packages/game-engine/src/commands/apply.ts:33-156 | what counts of the sender in this phase afterwards is the vote, the readiness and the action asked for, with the rival of a harlot's action dropped, and otherwise what counted before; rows of other phases never count; a day action is remembered with its day and target |
| Commands.OneDoorAtATime | packages/game-engine/src/commands/apply.ts:46-49 | no command makes a harlot both visit and stay |
| Commands.CommandKeepsTheClock | packages/game-engine/src/commands/apply.ts:96-127 | no accepted command moves the deadline below the 40% floor or past the full length, or leaves it early with somebody not ready |
| Commands.GetLegalCommands | packages/game-engine/src/projection/legal-commands.ts:42-96 | the list holds exactly the enumerable votes and actions that validation accepts now |
| Commands.ListAgreesWithCheck | packages/game-engine/src/projection/legal-commands.ts:24-96 | a vote or action is accepted if and only if it is listed, up to the order of a pair |
| CommandLaws.WhoMayAct | packages/game-engine/src/roles/action-spec.ts:31-48 | action by action: it is offered if and only if the player lives, takes themselves for its role, it is its time and it has not been used up |
| CommandLaws.WhomItMayName | packages/game-engine/src/roles/targets.ts:8-25 | action by action, whom it may name |
| CommandLaws.WhoMayRead | packages/game-engine/src/chat.ts:9-30 | who may read a channel, by role, start and marker |
| CommandLaws.AcceptedExactlyWhen | packages/game-engine/src/commands/validate.ts:17-161 | command by command: it is accepted if and only if its sender is seated, the phase is open and the one meant, and the sender may do what it asks now |
| CommandLaws.RefusedBecause | packages/game-engine/src/commands/validate.ts:17-161 | what each error says of its reason |
| CommandLaws.WhomOneMayMention | packages/game-engine/src/chat.ts:36-90 | whom a player may mention in a channel: those let in later never anybody from before them |
| CommandLaws.WhatMayBeMentioned | packages/game-engine/src/commands/validate.ts:82-127 | on ranges, texts and names alone: when exactly the mentions of a message are in order |
| CommandLaws.TheDeadline | packages/game-engine/src/commands/apply.ts:96-127 | where exactly a change of readiness puts the deadline |
| Composer.Choose | packages/game-engine/src/composer/compose.ts:35-55 | the backtracking appends exactly the candidates its recursion enumerates |
| Composer.SearchIsExact | packages/game-engine/src/composer/compose.ts:22-59 | every valid choice of the drawn size is listed, exactly once, and nothing else |
| Composer.SomethingIsDrawable | packages/game-engine/src/composer/compose.ts:70-76 | at every size from five up there is a slot count to draw |
| Composer.SomethingIsFound | packages/game-engine/src/composer/compose.ts:56-58 | for every drawable slot count there is a valid choice, classic and chaos from five players, cult from nine |
| Composer.NoCultBelowNine | packages/game-engine/src/composer/constraints.ts:25-30 | the cult preset has none below nine |
| Composer.PackIsStartingWolfCount | packages/game-engine/src/composer/balance-v1.ts:41-50 | a valid deal has exactly the starting number of pack members, except none at five players with a serial killer |
| Composer.ComposeBalancedGame | packages/game-engine/src/composer/compose.ts:61-90 | which candidate is dealt, when one is, and that the deal is valid, keeps to its preset, has the right pack and fills exactly the drawn slots |
| Phases.Shuffle | packages/game-engine/src/resolution/phase.ts:166-173 | the swaps, one by one, deal the same roles |
| Phases.EveryOrderCanBeDealt | packages/game-engine/src/resolution/phase.ts:166-173 | for every order of the roles there are draws that lead to it |
| Phases.ShuffledIsValid | packages/game-engine/src/resolution/phase.ts:166-173 | a shuffled valid composition is valid |
| Phases.StartGame | packages/game-engine/src/resolution/phase.ts:25-85 | the errors, and that a started game seats the shuffled composition on the lobby and opens the first discussion |
| StartLaws.WhatMayBeDealt | packages/game-engine/src/composer/constraints.ts:11-65 | a deal is valid if and only if: every rule on copies, sizes, company and villagers, on the bare multiset of roles |
| StartLaws.ThePackStartsWith | packages/game-engine/src/composer/balance-v1.ts:41-44 | how many wolves a game starts with |
| StartLaws.EverythingCanBeDealt | packages/game-engine/src/composer/compose.ts:22-90 | every valid deal of the preset with the drawn number of special roles and the right pack is one that some pick leads to |
| StartLaws.NothingElseIsDealt | packages/game-engine/src/composer/compose.ts:22-90 | and no pick leads to anything else |
| StartLaws.EverybodyIsSeated | packages/game-engine/src/resolution/phase.ts:25-85 | everybody in the lobby is alive with the role dealt to their place, its faction and its fresh state, and nobody else is touched |
| Phases.ResolveExpiredPhase | packages/game-engine/src/resolution/phase.ts:87-104 | discussion opens voting, a vote that does not finish opens the night, a night that does not finish opens the next discussion |
| PhaseLaws.TheDayEnds | packages/game-engine/src/resolution/phase.ts:87-104 | from the stored votes to the next phase: whom the mayor, or else strictly the most of the living, have named is dead, with their living lover, unless the princess is spared; while the game goes on nobody else dies |
| PhaseLaws.TheNightEnds | packages/game-engine/src/resolution/phase.ts:87-104 | and whom strictly the most of the pack have named, unguarded and at home, has died or changed sides |
| PhaseLaws.NothingHappens | packages/game-engine/src/resolution/phase.ts:87-104 | a discussion changes nothing but the phase, and a day that names nobody kills nobody |
| Runs.StepKeepsInv | packages/game-engine/src/resolution/phase.ts:87-104 | membership, start, commands, phases and cancellation all keep the invariant of the game |
| Runs.RolesStaySingle | packages/game-engine/src/resolution/night/freeze.ts:45-67 | in every reachable state factions follow roles, at most one living player really holds a single-copy role, and two intents of an action other than the pack's that are not mimicked are the same |
| Runs.TheClockRuns | packages/protocol/src/ids.ts:20-22 | in every reachable running state the phase id tells day and kind, the deadline is between the floor and the full length and early only when all alive are ready, and a vote that counts names a living player |
| Runs.LivingNeverGrows | packages/game-engine/src/resolution/phase.ts:87-104 | after the start nobody comes to life |
| Runs.EveryGameEnds | packages/game-engine/src/resolution/night/index.ts:46-79 | however it is played, a running game resolves at most a bounded number of phases: fifteen per living player, three per quiet night left and the rest of the day |
| Projection.TalliesShowTheCount | packages/game-engine/src/projection/snapshot.ts:34-50 | the shown tallies are every target with its number of voters, most votes first |
| Projection.CountVoteTallies | packages/game-engine/src/projection/snapshot.ts:34-50 | the loop over the players comes to those tallies |
| Projection.BuildSnapshot | packages/game-engine/src/projection/snapshot.ts:74-153 | the snapshot built step by step is the projection |
| Projection.SecretsStayHidden | packages/game-engine/src/projection/snapshot.ts:74-153 | in an unfinished game two states that agree on what a viewer outside the pack and the secret channels may know give that viewer equal snapshots |
| Projection.TargetsAgree | packages/game-engine/src/roles/targets.ts:8-25 | the targets of an action other than the attack do not tell who the others are |
| ProjectionLaws.WhatEverybodySees | packages/game-engine/src/projection/snapshot.ts:13-21 | the players in order with name, status and, once dead or when all is over, their role; the winners when all is over |
| ProjectionLaws.WhatTheTalliesSay | packages/game-engine/src/projection/snapshot.ts:34-50 | during a vote exactly every target with the number of the living who vote for it, most first |
| ProjectionLaws.WhatThePackSees | packages/game-engine/src/projection/snapshot.ts:56-72 | at night the living of the pack and nobody else are shown who of the pack attacks whom |
| ProjectionLaws.WhichActionsAreShown | packages/game-engine/src/projection/available-actions.ts:11-38 | the actions shown are exactly those the viewer may take, with exactly the players each may name and the stored choice |
| ProjectionLaws.WhatOneSeesOfOneself | packages/game-engine/src/projection/snapshot.ts:129-150 | the viewer's own card, channels and known members |
| ProjectionLaws.TheDrunkCannotTell | packages/game-engine/src/roles/perceived.ts:19-28 | while they live and the game goes on, a drunk is shown exactly what they would be shown if they really held the role |
| GameLock.GameLock.Arrive | apps/server/src/game/locks.ts:5-12 | a caller queues behind the tail and becomes the tail |
| GameLock.GameLock.Release | apps/server/src/game/locks.ts:15-18 | leaving opens the gate of the next and clears the queue only when nobody came meanwhile |
| GameLock.OneAtATimeInOrder | apps/server/src/game/locks.ts:4-19 | at most one caller is inside, and callers enter in the order they came |
| GameLock.NobodyIsForgotten | apps/server/src/game/locks.ts:4-19 | when everyone before a waiter is done, the waiter may enter |
| GameLock.WaitingForOneIsEnough | apps/server/src/routes/chat.ts:31-45 | the post queue, which waits only for the promise before, opens at the same moments as the chained lock |
| GameStore.Repository.CommitTransition | packages/db/src/repository.ts:446-517 | a transition is applied exactly when the version is the expected one, which it then moves on |
| GameStore.Repository.CommitMembership | packages/db/src/repository.ts:344-408 | so is a change of membership |
| GameStore.CommitAppliesWhereItRead | apps/server/src/game/coordinator.ts:61-81 | a commit that goes through was computed from exactly the state it is applied to, although that was read in two queries; a stale one changes nothing |
| GameStore.CommitsAreSerialisable | apps/server/src/game/coordinator.ts:61-81 | under any interleaving of requests the stored state is one that a sequential run of the engine reaches, and so keeps the engine's invariant |
| GameStore.OnlyTheOvertakenFail | apps/server/src/game/coordinator.ts:61-81 | a commit takes the stored state one step on, unless somebody else's has gone through since the row was read |
| GameStore.TheUndisturbedGoThrough | apps/server/src/game/coordinator.ts:61-81 | a request that reads and commits with nothing in between goes through |
| GameHub.Subscriber.Subscribe | apps/server/src/live/game-hub.ts:84-149 | the critical section of a subscription: what is sent, or why not |
| GameHub.Subscriber.Deliver | apps/server/src/live/game-hub.ts:194-213 | what one prepared frame sends, from the whole log after gaining a channel |
| GameHub.Hub.Prepare | apps/server/src/live/game-hub.ts:151-190 | one pass prepares a frame for every live seated subscriber and closes those without a seat |
| GameHub.Hub.DeliverAll | apps/server/src/live/game-hub.ts:191-214 | every prepared frame is sent to its own subscriber only |
| GameDelivery.EventStore.InsertEvents | packages/db/src/repository.ts:459-513 | events are inserted in order, a retried command finds its row, and joins write their markers |
| GameDelivery.InsertingGrows | packages/db/src/repository.ts:459-513 | the log grows by rows that are all handed to the broadcast, and markers are only written as of new events |
| GameDelivery.InsertedRows | packages/db/src/repository.ts:459-513 | every draft has its row in the log, new ones under their own key and scope, and no two rows answer one command |
| GameDelivery.JoiningMarks | packages/db/src/repository.ts:459-513 | after a commit the marker of a player who joined is the row of their last join event, and everybody else's is as before |
| GameDelivery.OldEventsWereVisible | packages/game-engine/src/projection/permissions.ts:6-51 | without a new channel, what a viewer may see of the old log they could see before the commit |
| GameDelivery.DeliveryRefinesTheLog | apps/server/src/live/game-hub.ts:84-214 | after every broadcast a live subscriber has been sent every logged event beyond its base that it may see now, also the history of channels it gained, and its cursor is the end of the log |
| GameDelivery.StepSendsOnlyTheVisible | apps/server/src/live/game-hub.ts:84-214 | what a step sends a socket is in the log and open to its user in the state it is sent from |
| GameDelivery.OnlyTheVisibleIsSent | packages/game-engine/src/projection/permissions.ts:6-51 | along any run a socket has been sent nothing that was never in the log and open to its user |
| GameAudience.OnlyTheAddressedAreReached | packages/game-engine/src/projection/permissions.ts:6-51 | on scopes and players' records alone, along any run: a socket is never sent a server event, a private one only if it is for its user, a secret chat's only if its user was in that chat at some time, from the start or since before the event, a grave's only if its user was dead at some time |
| GameAudience.TheAddressedAreReached | apps/server/src/live/game-hub.ts:84-214 | and everybody else is reached: between broadcasts a live subscriber has been sent, beyond its base or from 0, every event for all, for its user, of the grave once dead, and of the secret chat its user is in, from the start or the marker on |
| GameAudience.SubscribersStayLive | apps/server/src/live/game-hub.ts:84-190 | when exactly a socket becomes subscribed, and what alone closes it |
| GameDelivery.CursorNeverDecreases | apps/server/src/live/game-hub.ts:174-213 | along any run a socket's cursor and what it has been sent only grow |
| EngineCommits.StepKeepsOrigins | packages/game-engine/src/resolution/phase.ts:25-104 | no step of a game rewrites the role a player started with |
| EngineCommits.OriginsOfAGame | packages/game-engine/src/resolution/phase.ts:25-104 | in every reachable state whoever has a role has a starting role, and once a game has started nobody's ever changes |
| EngineCommits.EngineMayCommit | apps/server/src/game/coordinator.ts:61-81 | every transition of the engine meets what delivery asks of a commit, and what is then stored is the engine's next state, but for the markers |
| Mentions.DiffChatText | apps/client/src/chat/mentions.ts:41-61 | the changed region lies between the longest common prefix and the longest common suffix of the rest |
| Mentions.DiffIsUnique | apps/client/src/chat/mentions.ts:41-61 | there is only one such region |
| Mentions.TransformMentions | apps/client/src/chat/mentions.ts:63-96 | the survivors of an edit, moved and in order |
| Mentions.DroppedWhenTouched | apps/client/src/chat/mentions.ts:63-96 | a mention is dropped exactly when the edit reaches into it |
| Mentions.WhereAMentionGoes | apps/client/src/chat/mentions.ts:63-96 | on the positions alone: a mention before the edit stays, one behind it moves by the difference of the lengths, any other is gone |
| Mentions.SurvivorCoversTheSame | apps/client/src/chat/mentions.ts:63-96 | a survivor keeps its user, its length and the very characters it covers |
| Mentions.ApplyChatEdit | apps/client/src/chat/mentions.ts:98-117 | a valid draft stays valid under any edit |
| Mentions.EditKeepsSpelled | apps/client/src/chat/mentions.ts:98-117 | an edit keeps every mention spelled as '@' and a name |
| Mentions.AQueryIsFound | apps/client/src/chat/mentions.ts:125-142 | a query is found if and only if an '@' is followed up to the caret by at most 24 allowed characters and no other '@' |
| Mentions.NoQueryOutside | apps/client/src/chat/mentions.ts:125-142 | what is found at, before and beyond the ends of the text |
| Mentions.ThePickerOpens | apps/client/src/chat/chat-components.tsx:44-55 | the picker opens for what is typed behind an '@', unless a mention starts there |
| Mentions.WhatASelectionWrites | apps/client/src/chat/mentions.ts:206-223 | what stands where after a selection |
| Mentions.SelectMention | apps/client/src/chat/mentions.ts:206-223 | selecting replaces the query by the name and adds one mention to the survivors |
| Mentions.SelectionIsValid | apps/client/src/chat/chat-components.tsx:44-55 | selecting somebody whose name has no '@', at a query the guard allows, gives sorted, disjoint, in-bounds mentions with the new one among them |
| Mentions.RenderMentionSegments | apps/client/src/chat/mentions.ts:262-282 | the segments spell the text, with exactly the mentions highlighted in order, or nothing highlighted when any is invalid |
| ChatContents.NormalizeChatContent | packages/protocol/src/chat.ts:40-94 | accepted exactly when the trimmed text is not empty and short enough and the mentions are few, apart and within it |
| ChatContents.TrimmingLeaves | packages/protocol/src/chat.ts:40-94 | between blanks stands what trimming leaves |
| ChatContents.AcceptedExactlyWhen | packages/protocol/src/chat.ts:40-94 | on the parts of the text alone: accepted if and only if what is left has between 1 and 500 units, the mentions are ranges of it and apart, and at most eight people are named |
| ChatContents.NormalKeepsMentions | packages/protocol/src/chat.ts:40-94 | normalising keeps the text every mention covers and whom it names |
| ChatContents.NormalIsSequential | packages/protocol/src/chat.ts:40-94 | what comes out is in order, apart and within the text |
| ChatContents.NormalisingIsIdempotent | packages/protocol/src/chat.ts:40-94 | what has been normalised is accepted again and comes out the same |
| BotMentions.TruncateUtf16 | apps/server/src/bots/mentions.ts:5-11 | a prefix of exactly the given length, or one unit less exactly when it would end in the first half of a pair |
| BotMentions.Chosen | apps/server/src/bots/mentions.ts:36-46 | known, allowed, current targets the decision names, each once and at most eight, and unless there are eight everyone it asks for |
| BotMentions.ChooseRecipients | apps/server/src/bots/mentions.ts:36-46 | the loop that stops at eight chooses exactly those |
| BotMentions.EverybodyNamedIsChosen | apps/server/src/bots/mentions.ts:13-46 | whoever the decision names and may be mentioned now is chosen, unless eight others are |
| BotMentions.NamingMoreAdds | apps/server/src/bots/mentions.ts:36-46 | in the order they are named in |
| BotMentions.FittingIsLongest | apps/server/src/bots/mentions.ts:49-56 | dropping recipients from the end keeps the longest run whose tokens fit |
| BotMentions.AddressedAreChosen | apps/server/src/bots/mentions.ts:31-56 | a message goes to at most eight people, all named by the decision and allowed now |
| BotMentions.TokenInPrefix | apps/server/src/bots/mentions.ts:72-78 | the running start is where each token stands in the text |
| BotMentions.TokensStandTogether | apps/server/src/bots/mentions.ts:58-79 | the first token opens the message and each later one follows after one space |
| BotMentions.TheMessageSays | apps/server/src/bots/mentions.ts:48-71 | what stands behind the tokens: the trimmed speech, cut to 300 and to what is left of 500, and that no cut gives up more than it must |
| BotMentions.ComposeBotChatContent | apps/server/src/bots/mentions.ts:31-80 | the tokens of those that fit, then as much of the speech as fits, one mention per recipient at its token, and nothing exactly when nothing is left |
| BotMentions.BotChatAlwaysValidates | packages/game-engine/src/commands/validate.ts:82-127 | what a bot composes is short and passes the engine's check of mentions |
| ReadState.CollapseState | apps/client/src/chat/read-state.ts:26-46 | the walk over the sorted rows moves the mark as far as nothing unread lies below it |
| ReadState.FarIsFurthest | apps/client/src/chat/read-state.ts:26-46 | that place is the furthest first message of an id with every first message up to it done |
| ReadState.CollapseKeepsUnread | apps/client/src/chat/read-state.ts:26-46 | collapsing does not change whether a message is unread that is not behind the viewer's own under its id |
| ReadState.KeptUnreadExactlyWhen | apps/client/src/chat/read-state.ts:33-41 | collapsing keeps a message unread in every state if and only if it is not behind the viewer's own under its id |
| ReadState.OneMessagePerId | apps/client/src/chat/read-state.ts:33-41 | with one message per id, no message is behind the viewer's own under its id |
| ReadState.MergeCommutes | apps/client/src/chat/read-state.ts:75-91 | merging is commutative |
| ReadState.MergeAssociates | apps/client/src/chat/read-state.ts:75-91 | merging is associative, for all states and all lists of messages |
| ReadState.MergeIsIdempotent | apps/client/src/chat/read-state.ts:75-91 | merging a collapsed state with itself changes nothing |
| ReadState.MergeReadsBoth | apps/client/src/chat/read-state.ts:75-91 | what is unread after a merge is what was unread on both sides |
| ReadState.CollapsedStays | apps/client/src/chat/read-state.ts:26-46 | what comes out of a collapse is collapsed |
| ReadState.MarkVisible | apps/client/src/chat/read-state.ts:55-66 | the loop over the visible ids adds the valid ones beyond the mark |
| ReadState.SeeingReads | apps/client/src/chat/read-state.ts:55-66 | seeing some rows reads exactly those |
| ReadState.MarkThrough | apps/client/src/chat/read-state.ts:68-73 | the mark moves up to a valid id and what it has passed is forgotten |
| ReadState.MarkingThroughReads | apps/client/src/chat/read-state.ts:68-73 | marking through an id reads everything up to it and nothing else |
| ReadState.RebaseRetainedState | apps/client/src/chat/read-state.ts:93-109 | the state rebased on the retained ids, with its three early cases |
| ReadState.RebaseKeepsUnread | apps/client/src/chat/read-state.ts:93-109 | rebasing keeps what is unread among the messages that are kept, whatever else the list holds |
| ReadState.UnreadSummary | apps/client/src/chat/read-state.ts:111-131 | the ids of exactly the unread rows in order, their number, and whether one of them mentions the viewer |
| ReadStore.ReadStore.Prune | apps/client/src/chat/read-store.ts:136-155 | dropping from the front of the games sorted by age removes one oldest after the other |
| ReadStore.PruneEvictsTheOldest | apps/client/src/chat/read-store.ts:136-155 | at most a hundred games are kept, everyone evicted is older than everyone kept, and the global conversation stays |
| ReadStore.PruneKeepsRecords | apps/client/src/chat/read-store.ts:136-155 | records go exactly when their index entries do |
| ReadStore.NewestIsKept | apps/client/src/chat/read-store.ts:136-155 | the newest game is never the one to go |
| ReadStore.ReadStore.Save | apps/client/src/chat/read-store.ts:169-193 | a save joins the record with what is stored, touches its index entry and prunes |
| ReadStore.SaveJoins | apps/client/src/chat/read-store.ts:169-193 | what is read back after a save has read exactly what was stored or saved, so no tab unreads what another has read; it is gone if and only if a hundred games are younger than the one saved |
| ReadStore.KeptExactlyWhen | apps/client/src/chat/read-store.ts:136-155 | pruning keeps a game if and only if fewer than a hundred are younger |
| ReadStore.SavedByAnEarlierClock | apps/client/src/chat/read-store.ts:169-193 | a save that is lost |
| ReadStore.ReadStore.MergeStored | apps/client/src/chat/read-store.ts:195-205 | the state in memory merged with what another tab stored |
| BotScheduler.PhaseRecord.ConsiderSeat | apps/server/src/bots/manager.ts:155-182 | what one seat of a reaction does: remember, wait, skip or start a turn |
| BotScheduler.PhaseRecord.RememberPending | apps/server/src/bots/manager.ts:474-480 | the latest mentions by id, each once, up to the limit |
| BotScheduler.PhaseRecord.SchedulePendingResumed | apps/server/src/bots/manager.ts:493-537 | after the await everything is checked again before a turn is taken |
| BotScheduler.PhaseRecord.FinishDecision | apps/server/src/bots/manager.ts:280-283 | a decision's end clears its mark and looks at what was missed |
| BotScheduler.TurnsAreBounded | apps/server/src/bots/manager.ts:134-183 | however reactions, decisions and awaits interleave on one record, a bot has at most one decision in flight, starts no more than its budget and never uses a turn number twice |
| BotScheduler.TheyTakeTheirTurns | apps/server/src/bots/manager.ts:155-182 | a bot with something to do that is not busy takes its first turn at once, and a later one when mentioned or woken with turns left |
| BotScheduler.TheMissedAreTakenUp | apps/server/src/bots/manager.ts:493-537 | so does one that looks at what it missed while the window is open |
| BotScheduler.TheLatestAreKept | apps/server/src/bots/manager.ts:474-480 | of the missed mentions the latest are kept, as many as the limit allows, and none is kept that was not missed |
| BotScheduler.NoMentionIsForgotten | apps/server/src/bots/manager.ts:280-283 | along any run: while a missed mention is remembered the bot is busy, and looks at it when done, or somebody is already about to |

## Left out

- Settings and metadata of a game (name, owner, visibility, join code, invitations, statistics, replay memberships): no rule of play depends on them.
- The results of information roles (seer, detective, sorcerer) and the audit, knowledge and announcement events: they change no player; only join events, which open channels, are modelled.
- The order of deaths and conversions between different players of one night: outcomes are kept per player, so event order and the roster order of patches are not captured.
- The members of a bloc are a set, not a list in roster order.
- `projectedPlayerLabel`: a player's label is their display name; the fallback for an empty name is not modelled.
- `resolveScheduledGame` and the timers that call it: a scheduled game starts or goes back to the lobby at any time, whether or not its time has come.
- Random numbers: weights, conversion chances and distributions are not modelled, only which values can come up.
- `baselineReadState`, `canonicalizeDraft`, `isMentionQueryReady`, `filterMentionCandidates` and its locale-aware ordering: they only add easy members or depend on Unicode tables.
- `isQueryCharacter` is a parameter of the query search, since it is a Unicode property.
- Storage that refuses writes, and the shapes of malformed records: a record is well-formed or garbage.
- `withPostedMessage` and the read reset of `App.tsx`: they move cursors outside socket order.
- A log that ends before the client's cursor: `withHistory` has that branch here, but runs start from cursors within the log.
- Resuming a game socket from a cursor beyond 0 after gaining the graveyard: the delivery result then speaks of events beyond that cursor only.
- A subscription waiting for the lock twice (the `subscribing` flag of the game hub), authorization of game access, and errors of the socket.
- Channel markers and the event log are part of `GameDelivery`, not of the state in `Runs` and `GameStore`; `EngineMayCommit` connects the two.
- Rate limits of global chat, the search for people, HTTP, authentication and schema parsing.
- `CallPool`, the pacing slots and the digest and prompt of a bot: a decision is an arbitrary input, and the time at which a bot speaks is not modelled.
- TurnsAreBounded: is about one record; a record replaced by a reaction that resumes late would start counting again.
- SurvivorsStayInPlace: is about one step from a reachable state; over a run it holds for a message as long as it stays held.
- SelectionIsValid: is about names without '@', which is what keeps two spelled mentions from overlapping.
