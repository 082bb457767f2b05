# Chad bot core, modelled in Dafny

This project models the core of the Chad Discord bot. That core is the state
shared on the `Bot` object, plus the pure decisions around it:

- **Rate limiter:** one fixed-size array of expiry slots per user.
- **Context window:** each channel keeps its last few messages for the
  language model.
- **Member directory:** a map from username or nickname to user ID. It is
  kept in step with join, update and leave events, and it is read by the
  `@name` mention rewrite.
- **Reminders:** created with `!remind`, fired by a ten-second sweep or by
  per-reminder timers, and removed by ID.
- **Snapshot:** the reminders and the reminder counter are saved to
  `chad_memory.json` through a temp file and a rename. A stale or
  foreign-version snapshot is ignored when loaded.
- **Small parsers and deciders:** command dispatch, the dice argument, the
  fact-check verdict colour and source list, and the edit-or-send choice.
- **Completion requests:** building the request and the tool-call message
  loop.

Each region the source runs under the bot's lock is one method of the class
`Bot.Bot`. The class's fields are the source's fields:

- each user's slot array is an `array<int>` that is updated in place;
- the other collections are `map`, `seq` and `set` fields that the methods
  reassign;
- timers are the set of reminder IDs that have one;
- everything the bot posts in a channel is appended to `outbox`.

The clock, the outcomes of file-system calls, random draws, duration parsing
and the web search are all parameters. The pure logic is functions with
lemmas, in modules that follow the source files:

| module | file | models |
|---|---|---|
| `Text` | text.dfy | the `strings`/`strconv` functions the bot uses |
| `OpenRouter` | openrouter.dfy | the request, its builders, and `Send` with the HTTP exchange as a parameter |
| `RateLimit` | ratelimit.dfy | the admission check, and the at-most-`MaxRequests`-per-window theorem |
| `ContextWindow` | history.dfy | the cap-and-evict window |
| `MemberCache` | members.dfy | the member directory |
| `Engage` | engage.dfy | the mention rewrite, the tool-call loop and request assembly |
| `Reminders` | reminders.dfy | the reminder text, the sweep, removal by ID, and ID uniqueness |
| `Settings` | settings.dfy | the snapshot, the load decision and the file store |
| `Commands` | commands.dfy | dispatch, dice, verdict colour, sources, edit-or-send, `!remind` |
| `Bot` | bot.dfy | the `Bot` class |

A few behaviours of the code worth knowing:

- **Free slots:** a rate-limit slot is free only when its expiry is strictly
  before `now`. A slot that expires at `now` is still held.
- **Missing file:** loading reports an error when the file is missing, as it
  does for one that will not decode.
- **Rejected snapshot:** a stale or foreign-version snapshot leaves the
  reminders and counter as they were.
- **Sweep order:** the sweep sends the due reminders back to front.
- **Shutdown and boot:** shutdown saves the snapshot but does not stop the
  timers. Reminders are re-armed at boot only by `initializeReminders`, which
  nothing in the code calls. Both operations are modelled.
- **Requests:** `handleAsk` and `engageWithMessage` build their client from
  the key, the window size and the model only. Their requests therefore carry
  an empty system prompt, and zero for the temperature and the token limit.
- **Reminder IDs:** `handleRemind` sets no ID on a new reminder and never
  advances the counter. The model gives each reminder the counter's ID and
  advances it (see Findings).

## Model

| member | source | states |
|---|---|---|
| Text.TrimPrefix | internal/bot/commands.go:237 | when the prefix is there, prefix + result is the input; otherwise the input comes back |
| Text.ContainsAt | internal/bot/commands.go:188-192 | an occurrence at any index makes `Contains` true |
| Text.ContainsChar | internal/bot/commands.go:244 | a one-letter pattern occurs exactly when the letter does |
| Text.Split | internal/bot/commands.go:277 | one more piece than separators; no piece holds the separator |
| Text.JoinSplit | internal/bot/commands.go:289 | joining the pieces of a split gives the text back |
| Text.SplitAtFirst | internal/bot/commands.go:245 | a piece without the separator, then the separator, splits off as the first piece |
| Text.SplitNone | internal/bot/commands.go:245 | a text without the separator is one piece |
| Text.DigitChar | internal/bot/commands.go:270 | each digit value has a digit character that reads back as that value |
| Text.ShowNat | internal/bot/commands.go:270 | a decimal spelling is non-empty and made of digits |
| Text.ShowNatValue | internal/bot/commands.go:270 | a decimal spelling reads back as its number |
| Text.Atoi | internal/bot/commands.go:247-254 | a text is accepted exactly when it is an optional `+` or `-` and at least one digit whose signed value fits in int64; the value is then that signed digit value |
| Text.AtoiExamples | internal/bot/commands.go:247-254 | the empty text, a lone sign and a stray character are rejected; `+5` is 5, `007` is 7 and `-12` is -12 |
| Text.Itoa | internal/bot/commands.go:270 | the spelling is non-empty and starts with `-` exactly for negatives |
| Text.AtoiItoa | internal/bot/commands.go:247-254 | every int64 that Itoa writes, Atoi reads back |
| Text.ItoaInjective | internal/bot/reminder.go:11 | distinct numbers have distinct spellings, so counter IDs never collide |
| Text.LowerAppend | internal/bot/commands.go:188 | lower-casing distributes over concatenation |
| Text.LowerHasNoCapitals | internal/bot/commands.go:188 | no ASCII capital is left after lower-casing |
| Text.LowerIdempotent | internal/bot/commands.go:188 | lower-casing a lower-cased text changes nothing |
| Text.LowerUnchanged | internal/bot/commands.go:188 | a text without ASCII capitals, U+0130 and U+212A is already lower case |
| Text.CountIn | internal/bot/commands.go:244-246 | a character is counted exactly when it occurs |
| OpenRouter.Request.constructor | internal/openrouter/openrouter.go:141-166 | the literal's fields hold what was given; prompt and response format are empty |
| OpenRouter.Request.AddMessage | internal/openrouter/openrouter.go:169-171 | exactly one message, with the given role and content, is appended at the end |
| OpenRouter.Request.AddMessages | internal/openrouter/openrouter.go:173-175 | all the given messages are appended in order after the existing ones |
| OpenRouter.NewRequest | internal/openrouter/openrouter.go:140-167 | the system prompt is the only message; model, tokens and temperature are copied; one tool, `search`; Send refuses it for every exchange |
| OpenRouter.Send | internal/openrouter/openrouter.go:96-138 | the guard refuses at most one message with no prompt; success exactly when guard, encoding, status 200, decoding and no API error all hold; a non-200 status is an error |
| RateLimit.FirstFreeFrom | internal/bot/bot.go:235-240 | the lowest slot from `from` with expiry strictly before `now`, or none when all are at or after it |
| RateLimit.Check | internal/bot/bot.go:234-247 | a new user gets `maxRequests` slots, slot 0 = now+window, the rest 0, and is admitted; a known user is refused iff every slot is >= now, and a refusal changes nothing; an admission renews exactly the lowest free slot; lengths never change |
| RateLimit.CheckAdmitsAt | internal/bot/bot.go:235-238 | when slot i is the lowest free one, the check admits and renews exactly slot i |
| RateLimit.Held | internal/bot/bot.go:234-240 | held slots are counted among the user's slots |
| RateLimit.HeldUpdate | internal/bot/bot.go:237 | renewing a free slot to a held time holds one more slot |
| RateLimit.HeldUpdateAny | internal/bot/bot.go:237 | renewing a slot that was not held never holds fewer |
| RateLimit.HeldFresh | internal/bot/bot.go:242-243 | a new user's slot array already holds its first slot |
| RateLimit.AdmissionsWithinHeadroom | internal/bot/bot.go:228-248 | admissions counted from `from` plus the slots held at from+window never exceed the slot count |
| RateLimit.AtMostMaxRequestsPerWindow | internal/bot/bot.go:228-248 | at most `maxRequests` of one user's messages are admitted in any interval [from, from+window] |
| RateLimit.ReadmittedAfterWindow | internal/bot/bot.go:235-238 | once every slot has expired, the next message is admitted |
| RateLimit.TwoPerMinuteScenario | internal/bot/bot.go:228-248 | with 2 per 60 s, messages at t, t+5, t+10, t+71 are admitted, admitted, refused, admitted |
| ContextWindow.Last | internal/bot/bot.go:261-263 | the last min(len, n) entries, in order |
| ContextWindow.Append | internal/bot/bot.go:257-263 | length min(len+1, max); the new message is last; the rest are the newest old entries in order |
| ContextWindow.AppendLast | internal/bot/bot.go:257-263 | appending to the last `max` entries keeps the last `max` entries of the longer log |
| ContextWindow.AppendAllKeepsMostRecent | internal/bot/bot.go:250-267 | after any arrivals the window is the last `max` messages of the whole history, in arrival order |
| ContextWindow.OverflowKeepsNewest | internal/bot/bot.go:250-267 | more than `max` arrivals leave exactly the newest `max` |
| MemberCache.Add | internal/bot/bot.go:148-151 | username and non-empty nickname resolve to the ID; every other name is untouched |
| MemberCache.Drop | internal/bot/bot.go:160-163 | exactly the username and non-empty nickname disappear; other entries are kept as they were |
| MemberCache.Update | internal/bot/bot.go:159-169 | new names resolve to the ID even when equal to old ones; old names not reused stop resolving; untouched names are unchanged |
| MemberCache.Leave | internal/bot/bot.go:178-181 | the username goes; the nickname goes only when the event carries the member and it is non-empty; nothing else changes |
| MemberCache.AddAllResolvesLast | internal/bot/bot.go:124-129 | after a guild is cached, a name resolves to the last listed member carrying it |
| MemberCache.AddAllUntouched | internal/bot/bot.go:124-129 | names no listed member carries keep their entry or stay absent |
| MemberCache.JoinThenLeave | internal/bot/bot.go:148-151 | a member who joins and leaves resolves under none of its names |
| Engage.WordRun | internal/bot/engage.go:16 | the longest run of `\w` characters at the front |
| Engage.RewriteWithoutAt | internal/bot/engage.go:54-60 | a text without `@` is unchanged |
| Engage.RewriteUnknownNames | internal/bot/engage.go:54-60 | when no cached key could be captured as a name (an empty cache, say), the whole text is left verbatim |
| Engage.UnknownMentionKept | internal/bot/engage.go:54-60 | `@name` of a name the cache does not hold, ended by a non-word character, stays `@name` and the rest is rewritten on |
| Engage.WordRunOfName | internal/bot/engage.go:16 | a name ended by a non-word character is captured whole |
| Engage.KnownMentionRewritten | internal/bot/engage.go:54-60 | `@name` of a cached name, ended by a non-word character, becomes `<@ID>` and the rest is rewritten on |
| Engage.ProcessToolCall | internal/bot/engage.go:157-192 | only `search` is handled; any other name gives `unknown function: NAME`; a result is a `tool` message named `search` answering the call's ID with the search output |
| Engage.Answered | internal/bot/engage.go:113 | the answered calls are among the calls |
| Engage.ToolMessagesCount | internal/bot/engage.go:106-119 | the loop appends one message per call plus one per answered call, between one and two per call |
| Engage.ToolMessagesAssistants | internal/bot/engage.go:106-119 | exactly one appended message per call is an assistant message; the tool results never are |
| Engage.CountRoleAppend | internal/bot/engage.go:106-119 | role counts add up over concatenation |
| Engage.AppendToolMessages | internal/bot/engage.go:106-119 | the request's messages become the old ones followed by, for each call, its assistant message and its result when processing succeeded |
| Engage.EngageRequest | internal/bot/engage.go:18-33 | system message, then the window in order, then one user prompt; it always passes Send's guard |
| Reminders.ReminderText | internal/bot/reminder.go:48 | the text tags the user and ends with the reminder's message |
| Reminders.Pending | internal/bot/bot.go:277-284 | the survivors are at most the reminders there were |
| Reminders.PendingMembers | internal/bot/bot.go:277-284 | a reminder survives a sweep at `now` iff its time is after `now` |
| Reminders.PendingAppend | internal/bot/bot.go:277-284 | survivors keep their relative order |
| Reminders.SweepStep | internal/bot/bot.go:277-283 | one back-to-front step keeps reminder i when pending and sends it when due |
| Reminders.SweepSplice | internal/bot/bot.go:282 | splicing out a due reminder i leaves the suffix from i filtered |
| Reminders.SweepNoticesMembers | internal/bot/bot.go:279-281 | every due reminder is sent, and only due reminders are |
| Reminders.SweepAccounting | internal/bot/bot.go:277-284 | sends plus survivors equal the reminders swept: each removed reminder was sent exactly once |
| Reminders.RemoveFirst | internal/bot/reminder.go:38-45 | with no match the list is unchanged; with a match exactly one element goes; nothing new appears |
| Reminders.RemoveFirstAt | internal/bot/reminder.go:39-43 | exactly the first reminder with the ID is removed, the others keep their order |
| Reminders.RemoveFirstUnique | internal/bot/reminder.go:34-45 | with unique IDs, removal leaves no reminder with that ID and keeps IDs unique |
| Reminders.IssueNext | internal/bot/commands.go:292-300 | appending a reminder with the counter's ID keeps IDs unique and issued below the bumped counter |
| Settings.Load | internal/bot/settings.go:49-78 | missing file: read error; undecodable: decode error; more than 604800 s old: ignored; else another version: ignored; else its reminders and counter |
| Settings.AgeBoundary | internal/bot/settings.go:61 | a snapshot exactly seven days old is accepted, one second older is stale |
| Settings.StaleBeforeVersion | internal/bot/settings.go:61-69 | staleness is decided before the version |
| Settings.SaveLoadRoundTrip | internal/bot/settings.go:21-74 | a snapshot read back within seven days restores the same reminders and counter |
| Settings.FileStore.Read | internal/bot/settings.go:52 | a file reads back exactly when it exists |
| Settings.FileStore.Save | internal/bot/settings.go:36-45 | failed write: nothing changes; failed rename: temp file removed, canonical file as before; success: snapshot in the canonical file, no temp file |
| Commands.Dispatch | internal/bot/commands.go:16-46 | the first command in the fixed order whose prefix starts the message; none when no prefix does |
| Commands.DiffersAt | internal/bot/commands.go:17-45 | a text that differs from a prefix at some index does not start with it |
| Commands.DispatchExamples | internal/bot/commands.go:21-43 | `!ask` and `!factcheck` without the space run nothing; `!reminder` runs the reminder command |
| Commands.ParseDiceFrom | internal/bot/commands.go:237-257 | the count is in least..10 or the default 1; the side number is in least..100 or the default 6 |
| Commands.DiceArg | internal/bot/commands.go:244-253 | in `AdB` with one `d`, each piece Atoi reads as a number in range is taken; a piece it rejects, or one out of range, leaves 1 die or 6 sides |
| Commands.SidesArg | internal/bot/commands.go:254-256 | an argument without `d` is one die, with that many sides when Atoi reads it as a number in range and 6 otherwise |
| Commands.ManyDs | internal/bot/commands.go:244-246 | an argument with two or more `d` gives the default one six-sided die |
| Commands.NoArg | internal/bot/commands.go:237-242 | `!roll` and `!roll ` give the default one six-sided die |
| Commands.ParseDiceAsWritten | internal/bot/commands.go:239-257 | counts are at most 10 and sides at most 100, with no lower bound |
| Commands.AsWrittenDiceRoundTrip | internal/bot/commands.go:244-253 | as written, `XdY` reads back as X dice of Y sides for every int64 X up to 10 and Y up to 100, zero and negatives included |
| Commands.AsWrittenSidesRoundTrip | internal/bot/commands.go:254-256 | as written, a bare `Y` reads back as one die of Y sides for every int64 Y up to 100 |
| Commands.NoDiceNoSides | internal/bot/commands.go:247-252 | as written, `!roll 0d0` is zero dice of zero sides |
| Commands.TwentySided | internal/bot/commands.go:247-252 | `!roll d20` keeps one die and takes 20 sides, as written and corrected |
| Commands.TwoDs | internal/bot/commands.go:244-246 | `!roll 1d2d3` is one six-sided die |
| Commands.ParseDice | internal/bot/commands.go:239-257 | count in 1..10, sides in 1..100, so the dice can be rolled |
| Commands.ZeroSidedDie | internal/bot/commands.go:254-263 | `!roll 0` gives one die with 0 sides, which `rand.IntN` cannot roll |
| Commands.OneZeroSidedDie | internal/bot/commands.go:244-253 | `!roll 1d0` gives one die with 0 sides |
| Commands.ItoaWithoutD | internal/bot/commands.go:244 | a number's spelling holds no `d` |
| Commands.TrimRoll | internal/bot/commands.go:237 | `!roll ` is trimmed off the argument |
| Commands.SplitDice | internal/bot/commands.go:244-246 | `XdY` with no other `d` contains `d` and splits into X and Y |
| Commands.DiceRoundTrip | internal/bot/commands.go:237-253 | `!roll XdY` in range reads back as X dice of Y sides |
| Commands.SidesRoundTrip | internal/bot/commands.go:254-256 | `!roll Y` in range reads back as one die of Y sides |
| Commands.SumBounds | internal/bot/commands.go:262-266 | n rolls in 1..sides total between n and n*sides |
| Commands.RollDice | internal/bot/commands.go:259-266 | one roll per die, each its draw plus one in 1..sides, and the total is their sum |
| Commands.VerdictColor | internal/bot/commands.go:186-194 | green iff the lower-cased answer has `verdict: true`; red iff not that but `verdict: false`; gray iff none of the three markers |
| Commands.LowerFinds | internal/bot/commands.go:188-192 | a marker in any capitalisation is found in the lower-cased answer |
| Commands.TrueVerdictIsGreen | internal/bot/commands.go:188-189 | an answer with `VERDICT: True` in any case is green |
| Commands.FalseVerdictIsRed | internal/bot/commands.go:190-191 | an answer with a false verdict and no true one is red |
| Commands.CountAppend | internal/bot/commands.go:202 | line breaks add up over concatenation |
| Commands.CountNone | internal/bot/commands.go:202 | a text without the character counts none of it |
| Commands.CountSourceLine | internal/bot/commands.go:202 | each source line holds exactly one line break |
| Commands.OneLinePerSource | internal/bot/commands.go:196-203 | the list has one line per listed source |
| Commands.SourceList | internal/bot/commands.go:196-203 | the list is the lines of the first three results at most, in order |
| Commands.MaybeEdit | internal/bot/commands.go:325-340 | an existing placeholder is edited (embed if given, else text) in its own channel; otherwise the embed or the text is posted to the channel |
| Commands.ParseRemind | internal/bot/commands.go:276-289 | fewer than 3 fields: usage error; duration unparsable or under a minute: duration error; else the duration and fields 2.. joined by spaces |
| Commands.RemindRoundTrip | internal/bot/commands.go:277-289 | `!remind WHEN TEXT` yields WHEN's duration and exactly TEXT |
| Commands.AsWrittenIdsCollide | internal/bot/commands.go:292-297 | two reminders made as written share the ID `""`; were their timers armed, removing the second by ID would remove the first |
| Commands.NewReminder | internal/bot/commands.go:289-297 | the counter's ID, the caller's channel and user, the text, and the Unix second the delay ends, at least 60 s after now |
| Bot.MuteIsNanoseconds | internal/bot/bot.go:196 | as written, a mute of 60 ends 60 ns later, within a second |
| Bot.MuteUntil | internal/bot/bot.go:196 | the mute lasts `muteTime` seconds |
| Bot.Bot.constructor | internal/bot/bot.go:43-58 | empty maps, no reminders, no timers, and the class invariant |
| Bot.Bot.IsRateLimited | internal/bot/bot.go:228-248 | the user's slots and the answer are those of RateLimit.Check; no other user's slots change |
| Bot.Bot.StoreMessageForContext | internal/bot/bot.go:250-267 | the channel's window becomes ContextWindow.Append of the old one; no other channel changes |
| Bot.Bot.GuildCreate | internal/bot/bot.go:118-132 | the cache becomes every listed member added in order |
| Bot.Bot.MemberJoin | internal/bot/bot.go:143-153 | the cache becomes MemberCache.Add of the old one |
| Bot.Bot.MemberUpdate | internal/bot/bot.go:155-172 | the cache becomes MemberCache.Update of the old one |
| Bot.Bot.MemberLeave | internal/bot/bot.go:174-183 | the cache becomes MemberCache.Leave of the old one |
| Bot.Bot.MessageCreate | internal/bot/bot.go:185-226 | bots are ignored; the rate limiter runs first; a refused message is not stored and mutes its author; an admitted one is stored, then dispatched when it has the prefix, else engaged when the draw came up |
| Bot.Bot.AskRequest | internal/bot/commands.go:58-67 | system message and channel window; it passes Send's guard iff the window is non-empty |
| Bot.Bot.EngageRequest | internal/bot/engage.go:18-33 | system message, channel window, one user prompt, always past the guard |
| Bot.Bot.SendReminder | internal/bot/reminder.go:47-52 | the reminder's text goes to its channel, whether or not the send succeeds |
| Bot.Bot.SweepReminders | internal/bot/bot.go:269-287 | the reminders become exactly the pending ones in order; the due ones are sent, back to front |
| Bot.Bot.ScheduleReminder | internal/bot/reminder.go:18-32 | a reminder due now is sent at once and gets no timer; a future one gets a timer under its ID and nothing is sent |
| Bot.Bot.RemoveReminder | internal/bot/reminder.go:34-45 | the timer entry goes and the first reminder with the ID is spliced out; with unique IDs none with that ID remains |
| Bot.Bot.FireReminder | internal/bot/reminder.go:26-29 | the timer callback sends, then removes by ID; with unique IDs the reminder is gone |
| Bot.Bot.InitializeReminders | internal/bot/reminder.go:54-62 | timers for exactly the reminders after the current second; nothing sent or removed |
| Bot.Bot.ShutdownReminders | internal/bot/reminder.go:64-74 | no timers remain; reminders untouched |
| Bot.Bot.HandleRemind | internal/bot/commands.go:276-304 | an invalid request changes nothing; a valid one appends one reminder at the end and bumps the counter; IDs stay unique |
| Bot.Bot.SaveSettings | internal/bot/settings.go:21-47 | the snapshot carries version 1.0, timestamp now, the reminders and counter, and goes through temp-then-rename; after a success a load in the next seven days restores them |
| Bot.Bot.LoadSettings | internal/bot/settings.go:49-78 | error only for a missing or undecodable file; an accepted snapshot replaces reminders and counter; any rejection changes nothing |

## Left out

- The HTTP transport of `Send` and the whole web-search client (internal/websearch/websearch.go). The exchange and the search outcome are parameters.
- Discord calls: sends, edits, reactions, deletions, timeouts, the status line and the gateway handlers. Reminder sends go to `outbox`. `messageCreate` returns its decision instead of adding the reaction and the timeout.
- The command handlers' network work and fixed texts. This covers the help text, the usage and confirmation replies of `!remind`, the roll reply, the thinking placeholder, the prompt wording and the embed layout. `handleCommand` is modelled as the choice of handler.
- Concurrency and timing: the lock, the goroutines, the tickers, `time.AfterFunc` and the signal wait. Each locked region is one atomic method, and the clock is a parameter. Work the source does outside its lock is folded into the same method; Bot.Bot.SaveSettings is the case where that hides a race.
- Randomness: the 10% engagement draw and the dice draws are parameters. The float temperature is an opaque 64-bit pattern.
- `handleCoinFlip` (the `!flip` handler): only its dispatch is modelled, as the command `Flip`. Its random draw and its reply are left out.
- `time.ParseDuration`: a parameter that returns nanoseconds.
- JSON encoding and decoding: a file holds a snapshot or something that does not decode.
- The emoji-or-text test on the model's answer (`unicode.IsLetter/IsDigit/IsPunct`). This includes its indexing of the first rune, which fails on an empty answer.
- internal/config/config.go and main.go are not part of this model. The configuration is a datatype whose two constraints the code relies on are stated as `ConfigOk`.
- `guildDelete`, `autoSaveData` and `shutdown`: they only call `saveSettings`, which is modelled.
- Bot.Bot.IsRateLimited: slot times are unbounded integers, so `now + window` does not model int64 wrap-around. Such a value is out of reach for any real clock.
- Settings.Load: the staleness test `now - timestamp` does not model int64 wrap-around for a timestamp near the int64 minimum.
- Settings.FileStore.Save: a failed write is all-or-nothing. A partially written temp file is not modelled.
- Reminders are values. The source shares `*Reminder` pointers between the list, the timers and the snapshot. Nothing mutates a reminder itself, but the list's backing array is shared too (see the next line).
- Bot.Bot.SaveSettings: takes the snapshot and writes it in one atomic step. In the source, `saveSettings` builds the snapshot from the live `b.reminders` slice under a read lock, then releases the lock before encoding it. A sweep or a removal running meanwhile splices the same backing array in place. The file can then hold a list that never existed, with one reminder lost and the last one duplicated. The model does not capture this race.
- Bot.Bot.ShutdownReminders: timers are modelled as the set of IDs that have one. In the source, scheduling a second timer under an ID already in the map replaces the first entry without stopping that timer. `shutdownReminders` stops only the timers still in the map, so the orphan still fires after shutdown, sending its reminder and removing by ID. Duplicate IDs are reachable: a loaded snapshot, or the empty IDs of the as-written `handleRemind`. The model does not track orphaned timers.
- Commands.ParseDiceFrom: its own contract states only the ranges. Which value is taken for which argument is stated by DiceArg, SidesArg, ManyDs and NoArg, for every lower bound.
- Commands.ParseDiceAsWritten: its own contract states only the upper bounds. The value taken is stated by AsWrittenDiceRoundTrip, AsWrittenSidesRoundTrip and DiceArg, SidesArg, ManyDs and NoArg at the int64 minimum.
- Text.Lower: only the case mappings that can make a character match lower-case ASCII text are modelled. Every other character is kept as is.

## Findings

| source | as written | input that shows it | evidently intended | confidence | as-written member | corrected member |
|---|---|---|---|---|---|---|
| internal/bot/commands.go:292-297 | `handleRemind` builds the reminder without an ID and never advances `reminderCounter` | two `!remind` commands: both reminders are kept and saved (settings.go:27) with ID `""`. The wrong removal is latent: it needs `initializeReminders`, which nothing in the code calls, to arm their timers. Then the second timer, removing by ID, takes out the first reminder and the second stays | each new reminder takes the counter's value as its ID and the counter goes up, so IDs are unique | high, not executed | Commands.AsWrittenIdsCollide | Commands.NewReminder |
| internal/bot/bot.go:196 | the timeout ends `time.Duration(MuteTime)` after now, i.e. MuteTime nanoseconds | the default `mute_time` of 60 (internal/config/config.go:45) mutes for 60 ns | MuteTime counts seconds, like the rate limit's `window` | high, not executed | Bot.MuteIsNanoseconds | Bot.MuteUntil |
| internal/bot/commands.go:247-263 | count and sides are capped above but not below | `!roll 0` (or `!roll 1d0`) asks for one die with 0 sides, and `rand.IntN(0)` panics | only counts 1..10 and sides 1..100 are taken, as with an out-of-range value | high, not executed | Commands.ZeroSidedDie | Commands.ParseDice |

The rest of the model uses the corrected members. `Bot.Bot.HandleRemind`
issues IDs from the counter, and `Reminders.IssueNext` proves those IDs
unique. `Bot.Bot.MessageCreate` mutes until `Bot.MuteUntil`. The roll takes
its dice from `Commands.ParseDice`, which always satisfies the precondition
of `Commands.RollDice`.
