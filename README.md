# Mute: verified models of the bot's core logic

This project models, in Dafny, the sequential logic at the heart of the Mute Discord bot
and proves what that logic promises. There is one module per source file, plus a small
shared module (`Common`) holding `Option`/`Result` and the text helpers.

- **Per-guild voice presence.** This is `ThreadedGuildVoice` (module `GuildVoice`).
  - `ThreadedGuildVoice` is a class holding the current `AudioPump`.
  - `Move` and `Stop` replace the pump step by step: stop the old pump, clear it, create a new one.
  - A ghost invariant states that every pump other than the current one has been cancelled.
  - The voice-state handler leaves exactly when nobody else is listening.
  - The pump loop is a method over a finite run of observations. Each observation says whether cancellation was seen, what the mixer reports as playing, and what its reads return. The transport calls appear as an ordered list of effects, starting with the connection and the PCM stream opened once before the loop.
  - `WriteOutput` is a `while` loop proved against the function `Copy`.
- **The Eliza script parser.** This is `Script` (module `ElizaScript`).
  - Each rule's regular expression is written as "find the first marker, then split what follows".
  - `Classify` gives the rule precedence.
  - The class `ScriptParser` holds the lists and the two "current list" cursors, which `ParseLine` and the eight `*Rule` methods update.
  - `Parse` is the specification those methods are proved against.
  - `ExpandSynonymKeys` is the backwards index loop, proved equal to a reference definition `Expanded`.
  - The keyword index and `GetKeys` close the model.
- **Pending transactions.** This is `DatabasePendingTransactions` (module `PendingTransactions`).
  - The two SQLite tables are maps keyed by row id.
  - The object opens whatever rows the tables already hold; new row ids follow SQLite's rule (one more than the largest in use).
  - `CreatePending` validates its arguments.
  - `Get` filters the records and orders them by instant.
  - `UpdatePending` moves a record out of Pending at most once and copies a confirmed record into the transactions table.
  - Confirm and deny return result codes taken from the state read before the update.
  - A ghost invariant ties every record confirmed through the object to its own copied row.
- **The reminder loop.** This is `AsyncReminderSender` (module `ReminderSender`).
  - The created, deleted and timeout actions are functions on the optional `next` reminder.
  - The loop runs one action per iteration; which wait finished first is an input.
  - The first action that throws (a faulted wait, a delivery that fails) ends the loop.
- **Search replies.** These are `CharacterSearch` and `MangaSearch` (modules `EmbedDescription`, `CharacterSearch`, `MangaSearch`): description shortening with its one error case, the display name, title and author selection, and optional fields.
- **Sentiment results.** This is the `SentimentResult` constructor (module `Sentiment`): the maximum score and the Negative, Positive, Neutral tie-break.
- **Reaction training.** This is `ReactionSentimentTrainer`: emote classification, resolving reacting users, de-duplication by id, and the "three users or a teacher" rule.
- **Conversations.** This is `ConversationalResponseService` (module `Conversations`): the candidate filter, the random pick, the keep-or-replace rule over a per-user map (an entry's completion is read when it is consulted), and the reply decision.

## Model

| member | source | states |
|---|---|---|
| Common.ToLower | Mute.Moe/Services/Payment/DatabasePendingTransactions.cs:84 | `ToLowerInvariant` on the unit: same length, each capital letter lower-cased, every other character kept |
| Common.IndexOf | Mute.Moe/Discord/Services/Responses/Eliza/Scripts/Script.cs:112 | the lazy `^.*?` prefix: the result is an occurrence of the marker with no earlier one, and none means no occurrence at all |
| ElizaScript.Body | Mute.Moe/Discord/Services/Responses/Eliza/Scripts/Script.cs:112 | what `^…$` sees: a final line feed is dropped, and any other line feed makes every pattern fail |
| ElizaScript.MatchValueSplit | Mute.Moe/Discord/Services/Responses/Eliza/Scripts/Script.cs:112 | a `M( )+(?<value>.*)` rule matches iff the marker followed by a space occurs; the value is what follows that first occurrence and its spaces, and does not start with a space |
| ElizaScript.DecompositionSplit | Mute.Moe/Discord/Services/Responses/Eliza/Scripts/Script.cs:93 | after the first `decomp:`, the modifiers are the longest run of `~`, `$` and space; the flags hold iff `$` or `~` is in that run; the pattern is the rest |
| ElizaScript.SplitRank | Mute.Moe/Discord/Services/Responses/Eliza/Scripts/Script.cs:124 | a key line's tail splits into keyword, spaces and the longest trailing digit run; the keyword never ends with a space, nor with a digit directly before the rank |
| ElizaScript.ParseRank | Mute.Moe/Discord/Services/Responses/Eliza/Scripts/Script.cs:131 | `int.TryParse`: the digits' value when it fits in an `int`, otherwise 0, and 0 for no digits |
| ElizaScript.SplitSpaces | Mute.Moe/Discord/Services/Responses/Eliza/Scripts/Script.cs:147 | `Split(' ')`: at least one piece, no piece contains a space, and a single piece iff there is no space |
| ElizaScript.Dedup | Mute.Moe/Discord/Services/Responses/Eliza/Scripts/Script.cs:147 | the `HashSet` of the words: exactly the same words, each once |
| ElizaScript.TransformSplit | Mute.Moe/Discord/Services/Responses/Eliza/Scripts/Script.cs:153 | `pre:`/`post:`: the source is the value up to its first space and the destination follows the spaces after it; a value with a space always matches; a value without one can only give an empty source and the whole value as destination |
| ElizaScript.TransformWithoutSpace | Mute.Moe/Discord/Services/Responses/Eliza/Scripts/Script.cs:153 | for a value with no space, the rule matches iff the marker is followed by two spaces or more, both runs of `( )+` then lying between marker and value |
| ElizaScript.Classify | Mute.Moe/Discord/Services/Responses/Eliza/Scripts/Script.cs:193-206 | a blank line is skipped; otherwise a line falls under the first rule, in the order reasmb, decomp, key, synon, pre, post, final, quit, whose pattern matches, with that pattern's values, and every earlier pattern fails |
| ElizaScript.AddDecomposition | Mute.Moe/Discord/Services/Responses/Eliza/Scripts/Script.cs:104 | one decomposition is appended to the last key's list; no other key and no keyword or rank changes |
| ElizaScript.AddReassembly | Mute.Moe/Discord/Services/Responses/Eliza/Scripts/Script.cs:115 | one reassembly is appended to the last decomposition of the last key; nothing else changes |
| ElizaScript.Apply | Mute.Moe/Discord/Services/Responses/Eliza/Scripts/Script.cs:91-189 | the effect of each rule keeps both cursors pointing at the last key's and the last decomposition's lists; the line is consumed iff it falls under a rule, and otherwise nothing changes |
| ElizaScript.Step | Mute.Moe/Discord/Services/Responses/Eliza/Scripts/Script.cs:193-206 | one line: consumed iff some rule matches, state unchanged otherwise, cursors kept valid |
| ElizaScript.Parse | Mute.Moe/Discord/Services/Responses/Eliza/Scripts/Script.cs:33-34 | the lines are processed in order, and the cursors stay valid throughout |
| ElizaScript.ParsedKeys | Mute.Moe/Discord/Services/Responses/Eliza/Scripts/Script.cs:122-139 | parsing yields one key per `key:` line, in order, with that line's keyword and rank |
| ElizaScript.StepHeads | Mute.Moe/Discord/Services/Responses/Eliza/Scripts/Script.cs:122-139 | a line adds a key iff it is a key line; decomposition and reassembly lines never change keywords or ranks |
| ElizaScript.StepTransforms | Mute.Moe/Discord/Services/Responses/Eliza/Scripts/Script.cs:151-169 | a line adds a transform to `pre` (or `post`) iff it is a `pre:` (or `post:`) line |
| ElizaScript.ParsedTransforms | Mute.Moe/Discord/Services/Responses/Eliza/Scripts/Script.cs:151-169 | the parsed `pre` and `post` lists are exactly the transforms of those lines, in order, whatever the cursors were |
| ElizaScript.NoKeyLineNoKeys | Mute.Moe/Discord/Services/Responses/Eliza/Scripts/Script.cs:97-105 | without a `key:` line there are no keys: decomposition and reassembly lines read before any key are consumed and dropped |
| ElizaScript.ToDictionaryFails | Mute.Moe/Discord/Services/Responses/Eliza/Scripts/Script.cs:37-38 | `ToDictionary` succeeds iff the sources are pairwise different; a failure names a repeated source |
| ElizaScript.ToDictionaryMap | Mute.Moe/Discord/Services/Responses/Eliza/Scripts/Script.cs:37-38 | a built map's keys are exactly the sources, and each source maps to its transform |
| ElizaScript.FirstGroup | Mute.Moe/Discord/Services/Responses/Eliza/Scripts/Script.cs:81 | `FirstOrDefault`: the first synonym group that contains the name, or none when no group does |
| ElizaScript.ExpansionMembers | Mute.Moe/Discord/Services/Responses/Eliza/Scripts/Script.cs:79-87 | an `@name` key expands to exactly one key per word of the first group holding `name`, each with the `@` key's rank and decompositions |
| ElizaScript.PlainMembers | Mute.Moe/Discord/Services/Responses/Eliza/Scripts/Script.cs:73-74 | the kept keys are exactly those whose keyword does not start with `@` |
| ElizaScript.AppendedMembers | Mute.Moe/Discord/Services/Responses/Eliza/Scripts/Script.cs:77-87 | the appended keys are exactly the expansions of the `@` keys |
| ElizaScript.ExpandedMembers | Mute.Moe/Discord/Services/Responses/Eliza/Scripts/Script.cs:67-89 | after expansion a key is present iff it is an input key whose keyword does not start with `@`, or a copy of some `@` key (its rank and decompositions) under one of the synonyms of the first group holding its keyword; a synonym may itself start with `@` |
| ElizaScript.ExpandSynonymKeys | Mute.Moe/Discord/Services/Responses/Eliza/Scripts/Script.cs:67-89 | the backwards loop leaves exactly `Expanded`: plain keys in order, then the expansions, last key's first |
| ElizaScript.ExpandAt | Mute.Moe/Discord/Services/Responses/Eliza/Scripts/Script.cs:72-87 | one loop step: a plain key stays in place; an `@` key is removed and its expansion goes at the end |
| ElizaScript.AppendSynonyms | Mute.Moe/Discord/Services/Responses/Eliza/Scripts/Script.cs:86-87 | appends one key per word of the group, in the group's order, with the original rank and decompositions |
| ElizaScript.KeysWith | Mute.Moe/Discord/Services/Responses/Eliza/Scripts/Script.cs:48-53 | the keys with a given keyword: exactly the list's keys having it |
| ElizaScript.IndexExact | Mute.Moe/Discord/Services/Responses/Eliza/Scripts/Script.cs:48-53 | grouping by keyword puts a keyword in the index iff some key has it, and its group is those keys in list order |
| ElizaScript.GetKeys | Mute.Moe/Discord/Services/Responses/Eliza/Scripts/Script.cs:56-64 | an unindexed keyword gives no keys |
| ElizaScript.NewScript | Mute.Moe/Discord/Services/Responses/Eliza/Scripts/Script.cs:21-54 | construction fails iff two `pre:` or two `post:` lines share a source; otherwise synonyms, final and quit lines are the parsed ones, and `GetKeys` of every keyword gives exactly the keys with it after the provider keys are appended and synonyms expanded |
| ElizaScript.ScriptParser.constructor | Mute.Moe/Discord/Services/Responses/Eliza/Scripts/Script.cs:23-30 | all lists empty, no current decomposition or reassembly list |
| ElizaScript.ScriptParser.ReassemblyRule | Mute.Moe/Discord/Services/Responses/Eliza/Scripts/Script.cs:110-120 | consumed iff the pattern matches; adds the reassembly only when a reassembly list is current |
| ElizaScript.ScriptParser.DecompositionRule | Mute.Moe/Discord/Services/Responses/Eliza/Scripts/Script.cs:91-108 | consumed iff the pattern matches; with a current key it adds the decomposition and opens a fresh reassembly list, and before any key it changes nothing |
| ElizaScript.ScriptParser.KeysRule | Mute.Moe/Discord/Services/Responses/Eliza/Scripts/Script.cs:122-139 | consumed iff the pattern matches; appends the key with an empty decomposition list, which becomes current, and closes the reassembly list |
| ElizaScript.ScriptParser.AddKey | Mute.Moe/Discord/Services/Responses/Eliza/Scripts/Script.cs:133-136 | the new key is appended and its list becomes the current one; no reassembly list is current |
| ElizaScript.ScriptParser.SynonymRule | Mute.Moe/Discord/Services/Responses/Eliza/Scripts/Script.cs:141-149 | consumed iff the pattern matches; appends the group of words |
| ElizaScript.ScriptParser.PreRule | Mute.Moe/Discord/Services/Responses/Eliza/Scripts/Script.cs:151-159 | consumed iff the pattern matches; appends the transform to `pre` |
| ElizaScript.ScriptParser.PostRule | Mute.Moe/Discord/Services/Responses/Eliza/Scripts/Script.cs:161-169 | consumed iff the pattern matches; appends the transform to `post` |
| ElizaScript.ScriptParser.FinalRule | Mute.Moe/Discord/Services/Responses/Eliza/Scripts/Script.cs:171-179 | consumed iff the pattern matches; appends the value to `final` |
| ElizaScript.ScriptParser.QuitRule | Mute.Moe/Discord/Services/Responses/Eliza/Scripts/Script.cs:181-189 | consumed iff the pattern matches; appends the value to `quit` |
| ElizaScript.ScriptParser.ParseLine | Mute.Moe/Discord/Services/Responses/Eliza/Scripts/Script.cs:193-206 | the new state and result are those of `Step`: blank lines skipped, only the first matching rule applied |
| ElizaScript.ScriptParser.TryStructureRules | Mute.Moe/Discord/Services/Responses/Eliza/Scripts/Script.cs:198-201 | the short-circuit over reasmb, decomp, key and synon: a match applies exactly that rule; no match changes nothing and means none of the four patterns matches |
| ElizaScript.ScriptParser.TryListRules | Mute.Moe/Discord/Services/Responses/Eliza/Scripts/Script.cs:202-205 | the rest of the short-circuit, over pre, post, final and quit |
| GuildVoice.CopyReads | Mute.Moe/Services/Audio/ThreadedGuildVoice.cs:111-123 | the chunks written are the mixer's reads in order; nothing is read when the count is not positive; every chunk but the last is non-empty |
| GuildVoice.CopyEnds | Mute.Moe/Services/Audio/ThreadedGuildVoice.cs:111-123 | the copy stops either on an empty read with bytes still owed, or on the read that used the count up, overshooting by less than a buffer |
| GuildVoice.WriteOutput | Mute.Moe/Services/Audio/ThreadedGuildVoice.cs:109-124 | the loop terminates and writes exactly the chunks `Copy` describes |
| GuildVoice.IterationFacts | Mute.Moe/Services/Audio/ThreadedGuildVoice.cs:144-159 | after an iteration the speaking state is the mixer's; a change is reported first, with the old value; all later effects are writes, made only while playing |
| GuildVoice.RunIteration | Mute.Moe/Services/Audio/ThreadedGuildVoice.cs:144-159 | the loop body computes exactly `Iteration` |
| GuildVoice.TeardownOnlyOnNormalExit | Mute.Moe/Services/Audio/ThreadedGuildVoice.cs:134-163 | the transport is stopped iff the loop leaves through its `while` condition, and then the last two calls are "speaking off" and "stop"; the early return skips both |
| GuildVoice.PumpStopsAtCancellation | Mute.Moe/Services/Audio/ThreadedGuildVoice.cs:134-142 | the loop ends at the first observed cancellation; at the head it finishes, after the wait it returns; later observations do not matter |
| GuildVoice.ThreadEntry | Mute.Moe/Services/Audio/ThreadedGuildVoice.cs:107-171 | the pump connects and opens the PCM stream at the channel's bitrate once, then, starting silent with a buffer of a tenth of a second of audio, the loop's effects and exit are exactly `Pump` |
| GuildVoice.AudioPump.constructor | Mute.Moe/Services/Audio/ThreadedGuildVoice.cs:92-98 | a pump starts in the given channel, not cancelled and not faulted |
| GuildVoice.AudioPump.Stop | Mute.Moe/Services/Audio/ThreadedGuildVoice.cs:100-105 | cancellation is requested, awaiting the loop rethrows iff the loop faulted, and the pump stays faulted, so later awaits rethrow too |
| GuildVoice.AudioPump.LoopThrew | Mute.Moe/Services/Audio/ThreadedGuildVoice.cs:166-170 | the loop's rethrown exception leaves its task faulted for good; cancellation is untouched |
| GuildVoice.ThreadedGuildVoice.Channel | Mute.Moe/Services/Audio/ThreadedGuildVoice.cs:21 | there is a channel iff there is a pump |
| GuildVoice.ThreadedGuildVoice.constructor | Mute.Moe/Services/Audio/ThreadedGuildVoice.cs:26-32 | no pump, no mixer inputs |
| GuildVoice.ThreadedGuildVoice.Move | Mute.Moe/Services/Audio/ThreadedGuildVoice.cs:62-76 | a no-op for the same channel id, null to null included; otherwise the old pump is cancelled first; the move rethrows iff the old pump is faulted, and then the old pump and channel stay and the pump is still faulted, so the next move rethrows again; on completion the channel is the requested one, with a fresh running pump iff it is non-null; every other pump stays cancelled |
| GuildVoice.ThreadedGuildVoice.Stop | Mute.Moe/Services/Audio/ThreadedGuildVoice.cs:57-60 | `Move(null)`: the pump is cancelled; it rethrows iff the pump is faulted, keeping the faulted pump; otherwise the channel is none |
| GuildVoice.ThreadedGuildVoice.Open | Mute.Moe/Services/Audio/ThreadedGuildVoice.cs:78-81 | the input is added to the mixer; the pump is untouched |
| GuildVoice.ThreadedGuildVoice.OnUserVoiceStateUpdated | Mute.Moe/Services/Audio/ThreadedGuildVoice.cs:34-55 | stops iff the bot is in a channel, the user is not the bot, the user was in the bot's channel and at most one user remains; otherwise nothing changes; a stop that rethrows keeps the faulted pump, one that completes leaves no pump; the mixer's inputs never change |
| PendingTransactions.Transition | Mute.Moe/Services/Payment/DatabasePendingTransactions.cs:40-53 | the `AND Pending = 'Pending'` update: only a Pending record changes, to Confirmed or Denied |
| PendingTransactions.FirstUpdateDecides | Mute.Moe/Services/Payment/DatabasePendingTransactions.cs:40-53 | over any run of updates the first decides the final state; a record leaves Pending once and never changes again |
| PendingTransactions.ConfirmCode | Mute.Moe/Services/Payment/DatabasePendingTransactions.cs:151-169 | each `ConfirmResult` holds iff the state read first is the matching one (none, Pending, Confirmed, Denied) |
| PendingTransactions.DenyCode | Mute.Moe/Services/Payment/DatabasePendingTransactions.cs:171-189 | each `DenyResult` holds iff the state read first is the matching one |
| PendingTransactions.Insert | Mute.Moe/Services/Payment/DatabasePendingTransactions.cs:28 | inserting a row by instant keeps the rows ordered, adds exactly that row and keeps ids distinct |
| PendingTransactions.NextRow | Mute.Moe/Services/Payment/DatabasePendingTransactions.cs:18 | SQLite's row id for a new row: 1 in an empty table, otherwise one more than the largest id in use, so it is fresh and above every existing id |
| PendingTransactions.NewRowId | Mute.Moe/Services/Payment/DatabasePendingTransactions.cs:18 | scanning the ids in use yields exactly `NextRow` |
| PendingTransactions.DatabasePendingTransactions.constructor | Mute.Moe/Services/Payment/DatabasePendingTransactions.cs:64-66 | `CREATE TABLE IF NOT EXISTS`: the rows already in the database stay |
| PendingTransactions.DatabasePendingTransactions.Construct | Mute.Moe/Services/Payment/DatabasePendingTransactions.cs:59-67 | fails with the argument error iff the transactions service is not `DatabaseTransactions`; otherwise a fresh object over the existing tables |
| PendingTransactions.DatabasePendingTransactions.CreatePending | Mute.Moe/Services/Payment/DatabasePendingTransactions.cs:69-91 | a negative amount, a null unit, and then self-payment are rejected in that order, writing nothing; otherwise a Pending row with the unit lower-cased and a null note as "" is added under the next row id, which is returned |
| PendingTransactions.DatabasePendingTransactions.Get | Mute.Moe/Services/Payment/DatabasePendingTransactions.cs:93-124 | exactly the records matching every supplied filter (strict time bounds, lower-cased unit), each once, ordered by instant |
| PendingTransactions.DatabasePendingTransactions.UpdatePending | Mute.Moe/Services/Payment/DatabasePendingTransactions.cs:126-149 | returns the state read before the update, none for an unknown id; only a Pending record changes; a confirmation copies it into the transactions table under that table's next row id |
| PendingTransactions.DatabasePendingTransactions.ConfirmPending | Mute.Moe/Services/Payment/DatabasePendingTransactions.cs:151-169 | the code of the state read first; only `Confirmed` changes anything: the record becomes Confirmed and is copied into the transactions table |
| PendingTransactions.DatabasePendingTransactions.DenyPending | Mute.Moe/Services/Payment/DatabasePendingTransactions.cs:171-189 | the code of the state read first; only `Denied` changes the record, and the transactions table never changes |
| ReminderSender.OnCreated | Mute.Moe/Services/Reminders/AsyncReminderSender.cs:124-130 | the created reminder becomes `next` when there is none or it triggers strictly earlier; the new trigger time is the minimum, and a tie keeps the old reminder |
| ReminderSender.OnDeleted | Mute.Moe/Services/Reminders/AsyncReminderSender.cs:143-148 | `next` is cleared iff it has the deleted id; otherwise it is unchanged |
| ReminderSender.OnTimeout | Mute.Moe/Services/Reminders/AsyncReminderSender.cs:165-199 | a completed delivery sends its attempt (a prelude iff the channel is a text channel and the prelude is not blank, then the embed) and deletes the reminder last; a delivery that throws emits only a prefix of the attempt, never the deletion, and reports failure |
| ReminderSender.RunAction | Mute.Moe/Services/Reminders/AsyncReminderSender.cs:38-48 | exactly the action of the wait that finished first runs; creation and deletion complete without effects, a faulted wait fails without effects, and a timeout keeps the fetched `next` and completes iff its delivery does |
| ReminderSender.TimeoutDeletes | Mute.Moe/Services/Reminders/AsyncReminderSender.cs:165-199 | a completed timeout deletes exactly one reminder, one whose delivery threw deletes none |
| ReminderSender.DeletionsMatchTimeouts | Mute.Moe/Services/Reminders/AsyncReminderSender.cs:28-55 | over any run of the loop, the deletions equal the timeouts delivered before the first action that threw |
| ReminderSender.RunAlive | Mute.Moe/Services/Reminders/AsyncReminderSender.cs:28-55 | the loop is still running iff no action of the schedule has thrown |
| ReminderSender.LoopEndsAtFault | Mute.Moe/Services/Reminders/AsyncReminderSender.cs:51-54 | once an action has thrown, the loop is over: later iterations add no effect |
| ReminderSender.ThreadEntry | Mute.Moe/Services/Reminders/AsyncReminderSender.cs:28-55 | the loop's effects are those of the schedule iteration by iteration, it stops at the first action that throws, it is still running iff none threw, and it deletes one reminder per delivered timeout |
| EmbedDescription.Addon | Mute.Moe/Discord/Modules/Search/CharacterSearch.cs:53-55 | "..." for a null or blank URL, otherwise "..." followed by "... <[Read More](url)>", the URL at a fixed position |
| EmbedDescription.Shorten | Mute.Moe/Discord/Modules/Search/CharacterSearch.cs:50-59 | null becomes empty; at most 2048 characters are kept unchanged; a longer description becomes exactly 2047 characters, a prefix of it followed by the addon, and fails iff the addon exceeds 2047 |
| EmbedDescription.ShortenFailsIff | Mute.Moe/Discord/Modules/Search/CharacterSearch.cs:57 | shortening fails iff the description is over 2048 characters and the URL is non-blank and over 2025 characters |
| CharacterSearch.OrEmpty | Mute.Moe/Discord/Modules/Search/CharacterSearch.cs:64 | `?? ""`: the string, or empty for null |
| CharacterSearch.StringCharacter | Mute.Moe/Discord/Modules/Search/CharacterSearch.cs:43-46 | the family name, one space, the given name |
| CharacterSearch.EmbedCharacter | Mute.Moe/Discord/Modules/Search/CharacterSearch.cs:48-70 | fails iff shortening fails; otherwise the shortened description, the display name as author, image and URL or "", and the fixed footer |
| CharacterSearch.FindCharacter | Mute.Moe/Discord/Modules/Search/CharacterSearch.cs:32-41 | `Take(max)`: the first `max` results, none when `max` is not positive |
| CharacterSearch.FindCharacters | Mute.Moe/Discord/Modules/Search/CharacterSearch.cs:25-28 | delegates with `max = 1`: at most the first result |
| MangaSearch.Titles | Mute.Moe/Discord/Modules/Search/MangaSearch.cs:45-50 | both titles: the Japanese one is the author (with the URL) and the English one the title; one title: it is the title; none: "Unknown Title" |
| MangaSearch.Fields | Mute.Moe/Discord/Modules/Search/MangaSearch.cs:52-55 | a Volumes field iff volumes are known, then a Chapters field iff chapters are |
| MangaSearch.FindManga | Mute.Moe/Discord/Modules/Search/MangaSearch.cs:21-59 | no result gives the "can't find" message; otherwise an embed with the shortened description, image, titles and fields, failing iff shortening fails |
| Sentiment.NewSentimentResult | Mute.Moe/Services/Sentiment/ISentimentEvaluator.cs:31-49 | inputs stored unchanged; the score is the maximum; the class is Negative iff its score is maximal, Positive iff it beats Negative and is maximal, Neutral iff it beats both |
| Sentiment.ClassificationIsTieBrokenArgmax | Mute.Moe/Services/Sentiment/ISentimentEvaluator.cs:39-47 | no class scores more than the chosen one, and every class earlier in the order Negative, Positive, Neutral scores strictly less |
| ReactionSentimentTrainer.ClassifyEmote | Mute.Moe/Discord/Services/ReactionSentimentTrainer.cs:25-30 | Happy gives Positive, otherwise Sad gives Negative, otherwise Neutral gives Neutral; any other emote gives nothing |
| ReactionSentimentTrainer.ResolveUsers | Mute.Moe/Discord/Services/ReactionSentimentTrainer.cs:38-40 | exactly the guild users that the first 128 reacting users convert to, the others dropped; for every id the first user with it comes from the first of those reactors converting to it |
| ReactionSentimentTrainer.Converted | Mute.Moe/Discord/Services/ReactionSentimentTrainer.cs:39-40 | the `Select`/`Where` pair: exactly the users that convert, in reactor order as far as de-duplication sees it: for every id, the first user with it is that of the first reactor converting to it |
| ReactionSentimentTrainer.DistinctFrom | Mute.Moe/Discord/Services/ReactionSentimentTrainer.cs:41-42 | `GroupBy(Id).Select(First)`: pairwise different ids, the same ids, each being the first user with it |
| ReactionSentimentTrainer.DistinctById | Mute.Moe/Discord/Services/ReactionSentimentTrainer.cs:41-43 | as many users as distinct ids, each the first occurrence of its id |
| ReactionSentimentTrainer.DistinctCard | Mute.Moe/Discord/Services/ReactionSentimentTrainer.cs:41-45 | users with pairwise different ids count as many ids as users, so `Length` counts distinct users |
| ReactionSentimentTrainer.OnReactionAdded | Mute.Moe/Discord/Services/ReactionSentimentTrainer.cs:23-47 | a lesson is the message content with the emote's sentiment |
| ReactionSentimentTrainer.TeachIff | Mute.Moe/Discord/Services/ReactionSentimentTrainer.cs:45-52 | a lesson is taught iff the emote has a sentiment and either at least three distinct ids resolve or the first resolved user of some id holds role 506127510740795393 |
| ReactionSentimentTrainer.TeacherAmongDistinct | Mute.Moe/Discord/Services/ReactionSentimentTrainer.cs:41-45 | some de-duplicated user is a teacher iff, for some id, the first user with that id is |
| Conversations.CandidatesSound | Mute/Services/Responses/ConversationalResponseService.cs:79-88 | every candidate was offered by a generator whose draw fell below its chance, and there are at most as many candidates as offers |
| Conversations.CollectCandidates | Mute/Services/Responses/ConversationalResponseService.cs:78-88 | the loop keeps an offered conversation iff its draw is below `MentionedChance` when mentioned, `BaseChance` otherwise, in generator order |
| Conversations.Chosen | Mute/Services/Responses/ConversationalResponseService.cs:90-91 | the random pick among the candidates: none iff there are none, otherwise one of them |
| Conversations.TryCreateConversation | Mute/Services/Responses/ConversationalResponseService.cs:74-92 | the candidates are collected in generator order and the result is `Chosen`: none iff there are no candidates, otherwise one of them |
| Conversations.KeepOrReplace | Mute/Services/Responses/ConversationalResponseService.cs:67-71 | no entry: the candidate, even none; a null entry, or one whose `IsComplete` reads true now, is replaced by the candidate; an active entry is kept |
| Conversations.ConversationalResponseService.constructor | Mute/Services/Responses/ConversationalResponseService.cs:24 | no conversations |
| Conversations.ConversationalResponseService.GetConversation | Mute/Services/Responses/ConversationalResponseService.cs:94-100 | the stored entry, or none when the user has no entry |
| Conversations.ConversationalResponseService.GetOrCreateConversation | Mute/Services/Responses/ConversationalResponseService.cs:61-72 | the result is `KeepOrReplace` of the user's old entry, its completion as read now, and the new conversation `Chosen` before the update; the user's entry is set to it and no other entry changes; an active entry is kept, otherwise the result is none or a candidate |
| Conversations.ConversationalResponseService.Respond | Mute/Services/Responses/ConversationalResponseService.cs:44-59 | the caller's entry becomes `KeepOrReplace` of the old one with the bot mentioned iff its id is among the mentions; a reply is sent iff a conversation exists and it answers, and it is that answer; only the caller's entry changes |

## Left out

- Threading and timing of the voice code: `Task.Run`, the cancellation token, `WaitOne(250)` and the race between concurrent `Move` calls. Cancellation is a flag observed at the loop head and after the wait.
- Discord transport calls: `ConnectAsync`, `CreatePCMStream`, `WriteAsync`, `SetSpeakingAsync` and `StopAsync` are recorded as ordered effects, and `GetUsersAsync` is an input. A failing call is one of the exceptions `AudioPump.LoopThrew` stands for; the model does not tie a particular failing call to that event. `using` disposal and the logging in the `catch` are not modelled.
- The mixer (`MultiChannelMixer` and its channels) is not part of this model. `IsPlaying` and `Read` are observations, and `Open` records the inputs in order.
- GuildVoice.AudioPump.LoopThrew: when the loop throws is not modelled; the event is a method any caller may invoke, and the exceptions that cause it are outside the model.
- GuildVoice.ThreadEntry: covers a finite run of observations; an unbounded run is the limit of these (`Running`).
- GuildVoice.ThreadedGuildVoice.OnUserVoiceStateUpdated: `before.VoiceChannel != Channel` compares object references; the model compares channel values.
- The null-argument checks of the constructors (`guild ?? throw`) and the event subscriptions.
- ElizaScript.SplitRank: `\d` is taken as the ASCII digits; .NET also matches other Unicode decimal digits.
- The .NET regular-expression engine in general: each pattern is written as a split on the first marker.
- ElizaScript.Dedup: a `HashSet`'s enumeration order is unspecified; the model takes first-occurrence order.
- Decomposition lists are shared between a key and the keys its `@` keyword expands to. They are copied by value, which is the same after parsing ends.
- `IKeyProvider` is a list of keys.
- `Key`, `Decomposition` and `ConstantReassembly` are records.
- Common.ToLower: lower-cases ASCII letters only, where `ToLowerInvariant` also maps other scripts.
- EmbedDescription.Shorten: lengths count Unicode scalar values, where .NET counts UTF-16 code units.
- Embed colours, the builder calls and the list formatting of `DisplayItemList` are not modelled.
- SQLite itself is not modelled:
  - its parameter binding and `SqlAsyncResult`;
  - the `(uint)(long)` cast of the row id;
  - the `decimal` text round trip (amounts are reals).
- PendingTransactions.DatabasePendingTransactions.Get: instants are integers compared numerically, where the TEXT column compares them as strings (equal for timestamps of equal length).
- PendingTransactions.DatabasePendingTransactions.Construct: the type test on the transactions service is a boolean input, and the constructor's check becomes a factory returning a `Result`, because a Dafny constructor cannot fail; the database handle is not modelled.
- PendingTransactions.DatabasePendingTransactions.CreatePending: the `(uint)` cast of the row id is not modelled; ids are unbounded. Rows are never deleted here, so the largest id in use is also the largest ever used.
- PendingTransactions.DatabasePendingTransactions.UpdatePending: the "more than one row" error cannot arise, because the row id is unique in the map.
- Sentiment.NewSentimentResult: scores are reals. The `float` NaN, which fails every comparison and falls through to Neutral, is not representable.
- Sending reminder messages, user and nickname lookup, and `Task.Delay` are effects or inputs.
- ReminderSender.ThreadEntry: covers finite schedules of iterations; the wait that finishes first, the store's fetch and whether a delivery throws (and after how many sends) are inputs; the exception's log line is not modelled.
- The `Random` draws of `ConversationalResponseService` and its final random pick are inputs.
- Conversations.KeepOrReplace: `IsComplete` is a live property of the stored conversation, which the conversation itself changes as it replies; the model takes its value at the moment of the lookup as an input and does not model the conversations' own state.
- `AsParallel` is treated as generator order.
- Conversations.ConversationalResponseService.GetOrCreateConversation: users are keyed by id; `ConcurrentDictionary` concurrency is not modelled.
