# botspm orchestrator, modelled in Dafny

This project models the core of botspm, a desktop tool that runs a fleet of
simulated streaming bots. Every bot has an account on a platform (TikTok,
YouTube or X) and its own ffmpeg encoder, which streams a still background with
audio piped in. The core has two parts.

The master process (`src/master.js`):

- loads the configuration and seeds the account table with a default roster of
  four bots;
- builds each bot's encoder command line;
- runs the interaction loop (transcribe, compose a reply, synthesise, write to
  the encoder, store the interaction), each bot inside its own error boundary;
- takes notes from a human "director" through a console and an API, and they
  steer the replies;
- reports status and shuts down;
- also holds the CAPTCHA resolver used when creating accounts, and the browser
  lookup.

The desktop UI:

- keeps a bounded command history, the settings, the dark-mode flag and the
  bots created in the session (`src/ui/app.js`);
- shows a logs panel that keeps the last 100 entries
  (`src/ui/components/logs-panel-component.js`).

Modules, one per part of the program:

- `JsString`: the JavaScript string operations the code relies on (`split` on
  one character, `trim` with JavaScript's white-space set, `startsWith`,
  `includes`, `replace`, number rendering).
- `Sequences`: the newest-first view shared by SQL `ORDER BY ... DESC LIMIT n`
  and the UI history.
- `Captcha`: the submit-then-poll resolver; the service replies are inputs.
- `Encoder`: the encoder argument list, the silence buffer, and the encoder
  process with its stdin buffer and backpressure.
- `Config`: `loadConfig` and `findChromePath`; file contents and accessible
  paths are inputs.
- `Registry`: account rows, `getAllBots`, INSERT / INSERT OR REPLACE over a
  table with a UNIQUE (bot_name, platform) key, and the default roster.
- `Persistence`: the database as a value (accounts, interaction log, director
  commands, open or closed).
- `Pipeline`: reply composition and the rows one loop pass stores, given what
  each external call does.
- `Director`: the console's line parser and what each command prints and
  changes.
- `Master`: the class holding the bots, their encoders, the notes, the
  database and the console, with start-up, one loop pass, console lines,
  `addDirectorCommand`, `stop` and `getStatus`.
- `LogsPanel` and `App`: the UI state as classes.

Randomness (`Math.random`), the clock, provider replies and the operating
system are parameters. The account table is a sequence in rowid order with the
key unique, rather than a map. This lets "rowid", "last inserted" and
`getAllBots`'s row order be stated.

## Model

| member | source | states |
|---|---|---|
| JsString.StartsWith | src/master.js:119 | `s.startsWith(p)`: `p` is a prefix of `s` (a definition with no contract of its own; also used at src/master.js:670 and 713) |
| JsString.Includes | src/master.js:134 | `s.includes(p)`: the leftmost search finds an occurrence (a definition; `IndexOfFrom` states what the search finds) |
| JsString.ReplaceFirst | src/master.js:671 | `s.replace(p, r)` with a string pattern: only the first occurrence is replaced (a definition; `ReplacePrefix` states its effect at src/master.js:671 and 714) |
| JsString.Split | src/master.js:274-279 | `split(' ')` yields at least one piece, no piece holds the separator, and there are two or more pieces exactly when the separator occurs |
| JsString.JoinSplit | src/master.js:274-279 | joining the pieces of a split restores the string |
| JsString.SplitJoin | src/master.js:274-279 | splitting a join of separator-free pieces restores the pieces |
| JsString.IndexOfFrom | src/master.js:134 | the first occurrence at or after the start index, or -1 when there is none |
| JsString.ReplacePrefix | src/master.js:671 | `replace(p, '')` on a line starting with `p` removes exactly that prefix |
| JsString.Trim | src/master.js:668 | `trim()` keeps a contiguous middle with no JavaScript white space at either end and removes only white space |
| JsString.TrimIdempotent | src/master.js:668 | trimming twice is trimming once |
| JsString.TrimNoSpace | src/master.js:668 | a string with no white space at its ends is its own trim |
| JsString.NatToString | src/master.js:795-800 | `${i + 1}` is a non-empty run of decimal digits |
| JsString.DecimalValueOfNatToString | src/master.js:795-800 | reading back the rendered number gives the number |
| JsString.NatToStringInjective | src/master.js:795-800 | different numbers render differently, so names like `Bot1`..`Bot4` differ |
| Sequences.Recent | src/master.js:931-937 | `ORDER BY created_at DESC LIMIT n`: min(n, length) rows, element k being the k-th newest |
| Captcha.IncludesOkHasField | src/master.js:134-136 | a reply containing `OK|` always has a second `|` field |
| Captcha.SecondField | src/master.js:123 | `split('|')[1]` holds no `|` |
| Captcha.Classify | src/master.js:134-139 | a poll reply lets polling continue exactly when it equals `CAPCHA_NOT_READY`; no reply at all is exactly the network error |
| Captcha.ClassifyOutcome | src/master.js:134-139 | a decisive reply is solved exactly when it contains `OK|`, with its second field as the token; otherwise it is an error carrying the reply; never a time-out or a start-up error |
| Captcha.NotReadyHasNoMarker | src/master.js:134-139 | the not-ready sentinel contains no `OK|`, so the solved test never fires on it |
| Captcha.PollFrom | src/master.js:126-144 | polling from attempt k sends at least k and at most 30 polls in all |
| Captcha.PollFromSpec | src/master.js:126-144 | timeout exactly when every remaining reply is not-ready, and then after all 30 polls; otherwise the last poll sent is the first reply that is not not-ready, and it decides the outcome |
| Captcha.PollContinues | src/master.js:134-143 | a reply that lets polling continue is exactly `CAPCHA_NOT_READY`, and the outcome is that of the next attempt |
| Captcha.PollStops | src/master.js:134-139 | any other reply ends polling at this attempt with its own outcome, never a time-out |
| Captcha.Solve | src/master.js:106-149 | missing key, failed submit and a submit not starting with `OK|` fail with no poll; polls happen exactly when the submit is accepted; the job id is the submit's second field; timeout exactly when all 30 polls are not-ready; an accepted submit has exactly the outcome and poll count of `PollFrom` from attempt 0 |
| Captcha.FirstDecisiveReplyDecides | src/master.js:134-141 | after k not-ready replies, reply k decides the outcome after exactly k+1 polls |
| Captcha.NeverReadyTimesOut | src/master.js:126-144 | a service stuck at not-ready gives a timeout after exactly 30 polls |
| Captcha.SolveCaptcha | src/master.js:106-149 | the while loop with its `attempts` counter computes `Solve` |
| Captcha.KeyMissing | src/master.js:109-113 | `!apiKey`: the key is unset or empty (a definition; `Solve` states that a missing key fails before any request) |
| Captcha.ErrorMessage | src/master.js:106-150 | the resolver words its own error for a missing key, a rejected submit, a rejected poll and the time-out; a solved run and a network error carry no message of its own |
| Config.DefaultConfig | src/master.js:37-67 | the configuration written on first run (a definition; `LoadConfig` states when it is used and `DefaultRosterOnDefaultPlatforms` what its platforms give) |
| Config.LoadConfig | src/master.js:26-78 | a provided config wins; else the parsed file; else the default (three platforms, better-sqlite3, 3000 ms), and only then is the file written; what is written is exactly `DefaultConfig` of the user-data directory |
| Config.FirstAccessible | src/master.js:250-261 | the index found is accessible and every earlier path is not; none is found exactly when no path is accessible |
| Config.FirstAccessiblePath | src/master.js:252-261 | the search loop returns the first accessible path, or the not-found error |
| Config.ChromePaths | src/master.js:232-250 | the browser paths of the operating system; the list is empty exactly for a platform other than win32, darwin and linux |
| Config.FindChromePath | src/master.js:230-262 | the search over the operating system's path list, empty for an unknown one |
| Encoder.NonEmpty | src/master.js:281 | `filter(arg => arg !== '')`: an element is kept exactly when it occurs and is not empty, every non-empty element as often as it occurs, and no more elements than there were |
| Encoder.NonEmptySingle | src/master.js:281 | one element survives exactly when it is not empty; with `NonEmptyAppend` this fixes the order: the non-empty elements in their order |
| Encoder.NonEmptyKeepsClean | src/master.js:281 | a list with no empty element passes the filter unchanged |
| Encoder.NonEmptyAppend | src/master.js:274-281 | filtering distributes over concatenation |
| Encoder.Words | src/master.js:274-279 | the non-empty tokens of a template |
| Encoder.FfmpegArgs | src/master.js:272-281 | the argument vector of `spawnFfmpeg`: no argument is empty, and the background path and the stream key are in it exactly when they are not empty |
| Encoder.FfmpegArgsLayout | src/master.js:272-281 | the argument list is the video-input tokens, the background path, the audio-input, video-codec, audio-codec and output-format tokens, then the stream key, with no empty argument |
| Encoder.FfmpegArgsPlacesPathAndKey | src/master.js:274-281 | the background path directly follows the video-input tokens and the stream key is last |
| Encoder.GenerateTts | src/master.js:613-629 | two seconds of 16-bit stereo 44.1 kHz silence (176400 zero bytes), on both paths |
| Encoder.EncoderProcess.Spawn | src/master.js:291 | a spawned encoder runs with the given arguments and an empty buffer |
| Encoder.EncoderProcess.Kill | src/master.js:898 | the process is marked killed; each call is counted |
| Encoder.EncoderProcess.Write | src/master.js:640 | a write buffers every byte and reports whether the buffer is under the high-water mark |
| Encoder.EncoderProcess.AwaitDrain | src/master.js:642 | a drain means everything buffered has been read |
| Encoder.PipeAudioBuffer | src/master.js:638-648 | delivered exactly when the encoder is alive; no byte lost; a write that leaves the buffer under the high-water mark returns at once with the bytes still queued, and only one that reaches the mark waits for `drain`, after which the buffer is empty and every byte has been read; a failed write changes nothing |
| Registry.OrDefault | src/master.js:492-493 | `v \|\| d`: NULL and the empty string give the default, so a non-empty default never yields an empty value |
| Registry.BotOfRow | src/master.js:484-494 | the columns renamed, persona defaulting to `Default persona` and gender to `M`, so persona and gender are never empty |
| Registry.GetAllBots | src/master.js:467-499 | one bot per row, in row order, each with a non-empty persona and gender |
| Registry.BotOfRowOf | src/master.js:434-445 | a stored bot reads back as itself with the row's id |
| Registry.Upsert | src/master.js:427-445 | INSERT OR REPLACE as SQLite performs it with an INTEGER PRIMARY KEY: the row with the bot's key is deleted and the bot is appended under the rowid after the largest one before the delete (a definition; `UpsertSpec` states its effect) |
| Registry.UpsertSpec | src/master.js:427-445 | INSERT OR REPLACE leaves exactly one row with the bot's key, under a rowid larger than every rowid before it; other keys' rows untouched; the key set grown by the key; the UNIQUE constraint kept |
| Registry.UpsertIdempotent | src/master.js:427-445 | replacing the same bot twice gives the same table as replacing it once, except that the bot's row moves to the next rowid; the keys are the same |
| Registry.ReUpsert | src/master.js:427-445 | the second replace leaves the other keys' rows of the first and stores the bot two rowids past the original largest |
| Registry.UpsertRest | src/master.js:427-445 | the rows of the other keys are the same before and after a replace |
| Registry.UpsertMaxId | src/master.js:427-445 | after a replace the bot's row holds the largest rowid, one past the previous largest |
| Registry.Insert | src/master.js:806-840 | a plain INSERT fails with the UNIQUE error exactly when the key exists, otherwise appends under the next rowid (the statement itself; `InsertKeepsUnique` states the constraint it keeps) |
| Registry.InsertKeepsUnique | src/master.js:823-837 | a successful INSERT adds exactly the bot's key to the key set, and a table with unique keys keeps them unique |
| Registry.InsertAll | src/master.js:807-839 | inserting bots one by one fails only with the UNIQUE error; otherwise the table grows by one row per bot |
| Registry.InsertFresh | src/master.js:823-837 | a bot with a new key in a table whose rowids are 1..n is stored under n+1, the key unique and the key set grown by the key |
| Registry.SeedBot | src/master.js:792-804 | the default bot with index i on a platform (a definition; `DefaultRoster` states its fields) |
| Registry.DefaultRoster | src/master.js:781-804 | no platforms throws; otherwise four bots, bot i on platform `i % n`, named `Bot{i+1}`, with stream key `rtmpTemplate + "BOT_{i+1}_KEY"`, username `bot{i+1}_{platform}`, password, signup URL and the i-th personality |
| Registry.DefaultRosterNamesDistinct | src/master.js:795 | the four default bots have pairwise different names |
| Registry.DefaultRosterOnDefaultPlatforms | src/master.js:42-58 | on the default platforms the roster goes tiktok, youtube, xcom, tiktok |
| Registry.SeedEmptyRegistry | src/master.js:781-840 | seeding an empty table stores four rows with rowids 1..4, the key unique, and `getAllBots` reads the roster back |
| Registry.SeedInserts | src/master.js:806-840 | inserting bots with distinct names into a table without their keys succeeds and appends them in order under consecutive rowids |
| Persistence.AppendCommand | src/master.js:674-680 | storing a director command fails exactly when the connection is closed, otherwise appends it (the statement itself; `LatestCommandIsMostRecent` states what it gives) |
| Persistence.ForBot | src/master.js:716-725 | `WHERE bot_name = ?` keeps only rows of that bot, each a row of the log, and no more rows than the log has |
| Persistence.ForBotMembers | src/master.js:716-725 | a row is selected exactly when it is in the log and belongs to the bot |
| Persistence.ForBotAppend | src/master.js:716-725 | the selection of a concatenation is the concatenation of the selections, so the bot's rows keep their table order |
| Persistence.RecentInteractions | src/master.js:716-725 | the `--history` query, the five newest rows of the bot (a definition; `HistoryIsLatestFive` states what it holds) |
| Persistence.HistoryIsLatestFive | src/master.js:716-725 | the history holds min(5, n) rows of the bot's n, the k-th being the bot's k-th newest row, each a row of the log for that bot |
| Persistence.HistoryAfterStore | src/master.js:716-725 | after a row is stored, its bot's history is that row followed by the four newest before it |
| Persistence.OtherHistoryUnchanged | src/master.js:716-725 | storing a row for one bot leaves every other bot's history unchanged |
| Persistence.LatestInteractionShownFirst | src/master.js:716-725 | the interaction stored last is the first one `--history` shows |
| Persistence.LatestCommandIsMostRecent | src/master.js:931-937 | the command stored last is the most recent director command |
| Pipeline.EffectiveGender | src/master.js:586 | `random` resolves to M or F by the coin; any other gender stays |
| Pipeline.VoiceStyle | src/master.js:587 | the warm style exactly for F, the authoritative one otherwise |
| Pipeline.DirectorNote | src/master.js:589-591 | no note exactly when there are no notes; otherwise built from the last note only |
| Pipeline.ReplyBody | src/master.js:586-600 | the reply opens with the persona and " responds ", followed at once by the voice style of the effective gender |
| Pipeline.ReplyBodyParts | src/master.js:586-600 | right after the persona comes the voice style of the effective gender and ": I think ", and the body ends with the input and the fixed closing text |
| Pipeline.ComposeReply | src/master.js:574-601 | the composed reply opens with the persona and " responds " and ends with the director note built from the last note (nothing when there are none) |
| Pipeline.ReplyCarriesNote | src/master.js:589-600 | the reply is the body followed by the director note: exactly the body with no notes, otherwise ending with the note built from the last one |
| Pipeline.ReplyIsWarmIffF | src/master.js:586-600 | the text after the persona starts with the warm style exactly when the gender is F, or random with the coin on F, and with the authoritative style exactly otherwise |
| Pipeline.ReplyDependsOnLastNoteOnly | src/master.js:589-591 | two note lists with the same last note give the same reply |
| Pipeline.WarmOnlyForF | src/master.js:586-587 | a reply is warm exactly when the gender is F, or random with the coin on F |
| Pipeline.SimulatedTranscript | src/master.js:551-558 | the placeholder transcription is never empty |
| Pipeline.SimulatedTranscriptIsServed | src/master.js:551-558 | a bot given the placeholder transcription, with no error escaping, passes every stage: it is never skipped for lack of input |
| Pipeline.ReplyOf | src/master.js:574-605 | the reply of one pass, the apology when composing throws (a definition; `ApologyOnlyOnFailure` states when it is the apology) |
| Pipeline.ApologyOnlyOnFailure | src/master.js:574-605 | a bot sends the apology exactly when composing failed: a composed reply is always longer than the apology |
| Pipeline.BotLog | src/master.js:957-985 | one bot's pass stores at most one row, and exactly one when it reaches the store, the connection is open and the insert succeeds (`BotLogRow` states what the row holds) |
| Pipeline.BotLogRow | src/master.js:976-985 | the stored row holds the bot's name, gender and platform, the transcription, the reply the bot sent (composed or the apology) and the time |
| Pipeline.StoredReplyCarriesLastNote | src/master.js:589-600 | a stored composed reply ends with the note built from the last director note |
| Pipeline.CycleLog | src/master.js:954-990 | the rows one pass stores, bot by bot (a definition; `CycleLogAppend` and `FaultIsolation` state its properties) |
| Pipeline.CycleLogAppend | src/master.js:954-990 | a pass's log is the concatenation of the bots' rows in bot order |
| Pipeline.FaultIsolation | src/master.js:954-990 | whatever happens to one bot, every other bot contributes exactly the rows it would have anyway |
| Pipeline.CompletedPassIsLogged | src/master.js:976-985 | a bot whose pass completes has its row in the pass's log |
| Pipeline.NoteReachesNextPass | src/master.js:672 | a note appended before a pass reaches it: every bot that stores a composed reply in that pass stores one ending with that note |
| Pipeline.SkippedBotLeavesNoRow | src/master.js:960 | a bot with no transcription contributes nothing |
| Pipeline.SkipDropsRow | src/master.js:957-960 | a bot without input leaves an empty place: the pass's log is that of the bots before it followed by that of the bots after it |
| Director.Parse | src/master.js:667-748 | the `--notify` message and `--history` bot name are what follows the prefix of the trimmed line, and never empty |
| Director.Classification | src/master.js:668-748 | on the trimmed line: notify exactly on the `--notify ` prefix; help, list, exit exactly on equality; history exactly on the `--history ` prefix; blank exactly on the empty line |
| Director.UnknownIsEverythingElse | src/master.js:746-748 | every other non-blank line, bare `--notify` included, is unknown |
| Director.ParseIgnoresSurroundingSpace | src/master.js:668 | white space around a command does not change it |
| Director.ListLines | src/master.js:704-709 | `--list` prints a heading, one line per account in table order, then an empty line |
| Director.HistoryBlock | src/master.js:732-737 | four lines per interaction, the k-th group of four being the k-th row's entry, in query order |
| Director.HistoryLines | src/master.js:728-738 | no rows print the no-history line; otherwise a heading, then the k-th row's four lines at lines 4k+1..4k+4, in query order |
| Director.NotifyLineRecordsNote | src/master.js:670-686 | a `--notify` line keeps the message as a note and acknowledges it; it is stored exactly when the connection is open |
| Director.OnlyNotifyChangesState | src/master.js:670-748 | no other line changes notes or database, and only `--exit` exits |
| Director.BlankLineIsIgnored | src/master.js:746 | a blank line prints nothing and changes nothing |
| Director.Perform | src/master.js:670-748 | what a parsed command prints and changes (a definition; `PerformKeepsState`, `NotifyLineRecordsNote` and `HistoryShowsLatestInteraction` state its effect) |
| Director.HandleLine | src/master.js:667-751 | the `line` handler: parse the trimmed line, then perform it (a definition; the lemmas on it state its effect) |
| Director.PerformKeepsState | src/master.js:670-748 | a command other than `--notify` keeps no note and leaves the database as it was; only `--exit` exits |
| Director.PerformHistory | src/master.js:713-738 | with the connection open, `--history` prints the history lines of the bot's recent interactions |
| Director.ParseHistoryLine | src/master.js:713-714 | a line trimming to `--history name` asks for exactly that bot |
| Director.HistoryLineIsTrimmed | src/master.js:668 | `--history name` is its own trim when the name ends in a non-space |
| Director.HistoryShowsLatestInteraction | src/master.js:713-738 | after an interaction is stored, `--history` for that bot prints it first |
| Master.InitialBots | src/master.js:773-841 | stored accounts are used as they are; an empty table is seeded with the default roster (four unique rows, read back as the roster); it fails exactly when the table is empty and there are no platforms |
| Master.MasterProcess.Init | src/master.js:864-874 | the control object starts with no notes and an open console |
| Master.MasterProcess.Launch | src/master.js:761-866 | start-up fails exactly when `InitialBots` fails; otherwise each bot gets its own fresh live encoder running its own argument list, and the database is open |
| Master.MasterProcess.SpawnEncoders | src/master.js:842-851 | one fresh, distinct, live encoder per argument vector, in order, each started with its own vector and nothing written yet |
| Master.MasterProcess.ServeBot | src/master.js:955-989 | one bot's pass: silence to its encoder if it reaches the write, delivered only if the encoder is alive, and the row it stores returned |
| Master.MasterProcess.RunCycle | src/master.js:954-990 | the rows stored are exactly `CycleLog`; each encoder receives one silence buffer exactly when its bot reaches the write and it is alive; no encoder is killed |
| Master.MasterProcess.HandleLine | src/master.js:667-751 | a console line changes notes, database and exit flag as the director model says, and `--exit` closes the console |
| Master.MasterProcess.AddDirectorCommand | src/master.js:877-892 | the note is always kept; it is stored and true returned exactly when the connection is open |
| Master.MasterProcess.Stop | src/master.js:895-916 | every encoder ends killed, each killed once only (a second stop kills nothing); console and database closed |
| Master.MasterProcess.GetStatus | src/master.js:919-948 | each bot with `running` exactly when its encoder is not killed, and the ten newest commands; after stop, the closed-connection error |
| Master.ClosedDatabaseStoresNothing | src/master.js:513-535 | once the connection is closed, a pass stores no row (the insert error is swallowed) |
| LogsPanel.Appended | src/ui/components/logs-panel-component.js:36-45 | the new entry is last; the length is one more, capped at 100; the result is the most recent suffix |
| LogsPanel.AppendWithRoom | src/ui/components/logs-panel-component.js:37-42 | below the cap an entry is appended and nothing is dropped |
| LogsPanel.AppendAtCap | src/ui/components/logs-panel-component.js:40-42 | at the cap the oldest entry goes and the rest keep their order |
| LogsPanel.AppendKeepsRecent | src/ui/components/logs-panel-component.js:41 | every entry but the oldest of a full list survives, one place lower |
| LogsPanel.LogsPanelComponent.constructor | src/ui/components/logs-panel-component.js:6-11 | empty list, cap 100 |
| LogsPanel.LogsPanelComponent.AddLog | src/ui/components/logs-panel-component.js:36-45 | the list becomes `Appended(old, log)` and stays within the cap |
| LogsPanel.LogsPanelComponent.ClearLogs | src/ui/components/logs-panel-component.js:47-50 | the list is empty, and the cap invariant still holds |
| App.SendDirectorCommand | src/ui/app.js:194-211 | the API is called exactly for a string with non-white-space content; a refused command returns false and logs nothing; true exactly when the API succeeds; failures logged with their message |
| App.SendableIgnoresSurroundingSpace | src/ui/app.js:195 | the guard's verdict does not depend on the white space around the command |
| App.PushHistory | src/ui/app.js:213-220 | the command goes first, at most ten are kept, and at ten the oldest is dropped |
| App.HistoryIsNewestTen | src/ui/app.js:213-220 | after any sequence of pushes the history is the ten most recent commands, newest first |
| App.PushRecent | src/ui/app.js:213-220 | one push turns the newest-first view of a list into that of the list extended by the command |
| App.Merge | src/ui/app.js:261 | every updated key takes its new value, every other existing key keeps its value, no other key appears |
| App.MergeIdempotent | src/ui/app.js:261 | saving the same settings twice gives the same config |
| App.InitialDarkMode | src/ui/app.js:50 | dark exactly when the stored preference is `"true"` or the system prefers dark (the expression itself; `StoredDarkModeRoundTrip` states what it gives) |
| App.StoredDarkModeRoundTrip | src/ui/app.js:50 | the stored flag is read back as the same mode |
| App.AppState.constructor | src/ui/app.js:6-11 | no config, light mode, no bots, empty history |
| App.AppState.AddLogEntry | src/ui/app.js:236-249 | the entry reaches the logs panel and is returned |
| App.AppState.ClearLogs | src/ui/app.js:252-255 | the panel then shows exactly the "Logs cleared" entry |
| App.AppState.AddCommandToHistory | src/ui/app.js:213-220 | the history becomes `PushHistory(old, command)` and the caller gets a copy of it |
| App.AppState.GetCommandHistory | src/ui/app.js:223-225 | a copy of the history, at most ten long |
| App.AppState.SaveSettings | src/ui/app.js:258-277 | the config becomes the merge of the old one (empty before loading) and the update, kept even if saving fails; true exactly on success; the matching entry is logged |
| App.AppState.UpdateDarkMode | src/ui/app.js:280-293 | the body class and the stored preference follow the flag, which is returned |
| App.AppState.ToggleDarkMode | src/ui/app.js:296-299 | the flag flips and the new value is returned, so two toggles restore it |
| App.AppState.GetConfig | src/ui/app.js:302-304 | a copy of the config, empty before one is loaded |
| App.AppState.CreateBot | src/ui/app.js:307-316 | the bot is logged and appended to the end of `activeBots`, and true is returned |

## Left out

- `createAccount` (src/master.js:157-224) drives a browser through puppeteer and hands a token to the page. It also swallows every error, the resolver's included. It is not modelled, and neither is the start-up loop that calls it for each bot (src/master.js:854-856). The resolver itself is modelled.
- Network, processes, files and the console are external. The CAPTCHA service, `spawn`, `fs`, readline and `process.exit` appear only as inputs or flags. Nothing the code sends to the loggers (winston, electron-log) is modelled; the UI logs panel is.
- Timers are left out: the 10-second poll wait, the 5-second account wait and `INTERACTION_DELAY_MS`. Each poll is one step, and each loop pass is one `RunCycle` call.
- The endless `while (true)` loop is modelled as one pass, `RunCycle`; calling it again models the next pass. That includes passes after `stop`, when the loop keeps running and no row is stored (`ClosedDatabaseStoresNothing`).
- Master.MasterProcess.RunCycle: every bot in a pass sees the notes as they were when the pass began. In the source, a note typed during a pass is seen by the bots served after it.
- Master.MasterProcess.RunCycle: the pass's rows are appended to `bot_logs` together at the end of the pass. The source inserts each row as its bot finishes. The rows stored by a whole pass, and their order, are the same. What differs is a read during the pass: the loop yields at every `drain` wait (src/master.js:642), and a `--history` command handled there (src/master.js:713-738) shows, in the source, the rows already stored for the bots served earlier in the pass. In the model a pass is one step, so no command can see part of a pass.
- `Math.random` becomes parameters: the transcription pick and the coin for a `random` gender.
- The `sqlite3` driver branches are not modelled, since both drivers store the same rows; better-sqlite3's behaviour is the one modelled. The SQL text is not modelled, and neither is the case where table creation fails.
- SQL timestamps: `created_at` is a given string. "Newest" means last inserted; SQLite leaves rows with equal timestamps in an unspecified order.
- The only call of `setupDatabase` passes an empty bot list (src/master.js:773), so its INSERT OR REPLACE loop (src/master.js:427-445) writes nothing in the core; `Registry.Upsert` and its lemmas model that statement on its own.
- Seeding bots with identical names would break the UNIQUE constraint. The default roster cannot, and `Registry.Insert` models that error.
- The catch in `getAllBots` that returns `[]` on a failed query is not modelled, because the connection is open at start-up.
- `path.join` normalisation: the default paths are the user-data directory followed by `/bots.sqlite` and `/static_background.png`.
- There is no lemma computing the default encoder argument vector from the literal templates. The layout lemmas cover every template.
- Encoder.PipeAudioBuffer: the model assumes that a wait for `drain` (src/master.js:642) always ends. In the source that wait has no timeout and no `close` or `error` listener. An encoder that exits, or that `stop` kills while a pass is waiting, leaves the pass waiting for good (or lets an EPIPE error escape the per-bot handler), and the loop then serves no later bot. `Master.MasterProcess.RunCycle` therefore always serves every bot.
- Encoder.PipeAudioBuffer: a write to a killed encoder is modelled as failing at once inside the helper's catch. Node may instead report the error asynchronously. Node's real high-water mark is a parameter.
- The encoder's `error` and `exit` events are not modelled, and neither are spawn failures.
- The logs panel's DOM rendering (`renderLogs`) is not modelled. It appends one visible row per entry and never removes rows when the list is trimmed, so the visible rows can outnumber the 100 kept.
- In `src/ui/app.js`, none of the following is modelled: `initializeApp` apart from its dark-mode default (src/ui/app.js:50), the IPC listeners, `handleDirectorCommand`, the session handlers, `startBots`/`stopBots`, `generateAIAvatar`/`generateAIBackground`, `getActiveSession`, or the custom window events. They are event wiring and placeholders around the state that is modelled.
- Truthiness of `NaN` is not modelled: numbers are integers.
