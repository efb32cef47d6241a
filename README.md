# Bedcode core in Dafny

Bedcode is a Telegram bot that drives an AI coding assistant running in a
Windows terminal window. The operator sends a message. The bot either types
it into the window, or queues it while the assistant is working. It then
watches the window title and reports what happens: a busy spinner, a ready
glyph, an interactive prompt, completion, and the queue draining message by
message.

This project models the decision logic of that bot and proves properties
about it. The operating system and Telegram become inputs and output logs:

- Window titles, terminal text, screenshots (known only by their digest),
  the foreground window and the success of typing are parameters or
  observation records.
- Everything sent to the operator or typed into the window is appended to an
  `Effect` log in `Config.BotState.log` or an `InputEvent` log in
  `Win32Api.Desktop.log`.
- Time is whole seconds.

There is one module per source file:

| module | source | form |
|---|---|---|
| `Config` | config.py | the shared `state` dict as the class `BotState`; the user-id parsing, the settings, the bounded deques |
| `ClaudeDetect` | claude_detect.py | the title classifier and the project-name decoding as functions; the recent-project walks as loops; the 5-second window cache as the class `WindowScanner` |
| `Monitor` | monitor.py | the prompt detector and the quick-reply parser as functions; `_monitor_loop` as a pure `Step` function over `Session` and `Shared`, with the imperative `Tick`/`MonitorLoop` methods on `BotState` proved equal to it; `_start_monitor`/`_cancel_monitor` on the task bookkeeping |
| `Win32Api` | win32_api.py | keyboard records and their pairing; the escape chain and how `type_keys` reads what it produces; the class `Desktop` (foreground-window oracle and event log) with `_activate_window`, `send_keys_to_window` and `send_raw_keys` as methods |
| `Utils` | utils.py | `split_text`, `_md_table_to_text`, `send_result` numbering as loops proved against functions; `_needs_file`, `_save_recent_dir`, `_get_handle` |
| `Handlers` | handlers.py | `_inject_to_claude`, `handle_message`, `handle_document`, `/delay`, `/auto`, `queue:clear` and the `_run_shell` guard as methods on `BotState`, each proved equal to a pure function whose properties are lemmas |
| `Text` | (Python built-ins) | `strip`, `split`, `join`, `in`, `lower`, `str(n)`, `int()` on `seq<char>` |
| `Wrappers` | — | `Option` |

bot.py is the older copy of the same bot. It is not modelled a second time.
Its differences are parameters instead:

- `Monitor.Variant` (`Modular` for monitor.py and handlers.py, `Monolith` for
  bot.py) selects the behaviour where the copies differ:
  - bot.py has no one-hour ceiling on a session;
  - it has no elapsed time in status lines;
  - its queue preview has no five-item cap;
  - its completion forwards the transcript reply only;
  - it keeps no command history in `handle_message`;
  - its `_run_shell` has no blocklist.
- `Utils.LegacyChunkLimit` is its 4000-character chunk size.
- `ClaudeDetect.LegacyProjectLabel` is its project label.
- `ClaudeDetect.ScanWindows` is its uncached window scan.

Where the prose description of the system and the code disagree, the model
follows the code:

- After a queued message is injected at completion, monitor.py does not reset
  the session's start time. The one-hour ceiling therefore counts from the
  start of the first message (`Monitor.Drain`).

## Model

| member | source | states |
|---|---|---|
| `Config.UserIdOf` | config.py:28-33 | a token that is blank after stripping contributes no user id |
| `Config.CollectMembers` | config.py:27-33 | the loop's set holds a value exactly when some token yields it, whatever the tokens around it |
| `Config.ParseAllowedUsers` | config.py:26-33 | `ALLOWED_USERS` is exactly the set of ids that some comma-separated token parses to; blank and non-integer tokens are skipped without stopping the loop |
| `Config.IntSetting` | config.py:34-36 | an unset variable gives the default (120 for `SHELL_TIMEOUT`, 15 for `SCREENSHOT_DELAY`); a set one is read by `int()`, and a value `int()` rejects stops start-up |
| `Config.LastN` | config.py:99 | the contents of a bounded deque: at most `n` elements, all of them when there are fewer |
| `Config.BoundedAppend` | config.py:91 | `deque(maxlen=n).append(x)` stays within `n` entries and ends with `x` |
| `Config.AppendAll` | config.py:99 | any number of appends keeps the deque within its capacity |
| `Config.AppendAllKeepsMostRecent` | config.py:99 | after any sequence of appends the deque holds exactly the `n` most recent items in insertion order |
| `Config.LastNAppend` | config.py:99 | dropping the oldest entries early does not change the last `n` after further appends |
| `Config.AppendBelowCapacity` | config.py:91 | below capacity an append is a plain list append, so the queue guard at 50 means nothing is ever dropped from `msg_queue` |
| `Config.BotState.constructor` | config.py:85-102 | the initial state: no target window, automatic monitoring on, empty queue and history, no status message, stream mode off, interval `SCREENSHOT_DELAY`, no monitor task |
| `Config.RecordHistory` | handlers.py:563 | the command history is the 20-entry deque after one more append |
| `ClaudeDetect.DetectState` | claude_detect.py:19-27 | thinking exactly when the title starts with a spinner glyph; idle exactly when it is non-empty, does not start with a spinner, and starts with `✳` or contains the case-sensitive word "Claude"; unknown otherwise |
| `ClaudeDetect.EmptyTitleUnknown` | claude_detect.py:20-21 | the empty title is unknown |
| `ClaudeDetect.SpinnerWins` | claude_detect.py:22-24 | a leading spinner gives thinking even when "Claude" occurs later |
| `ClaudeDetect.ReadyGlyphIsIdle` | claude_detect.py:25-26 | a leading `✳` gives idle: the ready glyph is not a spinner glyph |
| `ClaudeDetect.ClaudeTitleIsKnown` | claude_detect.py:25-27 | a title containing "Claude" is never unknown |
| `ClaudeDetect.DriveFormIff` | claude_detect.py:94-95 | the test `len(parts) >= 2 and len(parts[0]) == 1` holds exactly for a name that is one non-dash character followed by a dash |
| `ClaudeDetect.DecodeProjDirname` | claude_detect.py:92-97 | a drive-form name decodes to its drive letter, `:\`, and the rest with every dash turned into a backslash; any other name is returned unchanged |
| `ClaudeDetect.DecodeDriveForm` | claude_detect.py:96 | `parts[0] + ":\\" + "\\".join(parts[1:])` equals the character-level description of the decoding |
| `ClaudeDetect.DecodeWithoutDash` | claude_detect.py:92-97 | a name without dashes decodes to itself |
| `ClaudeDetect.LastPart` | claude_detect.py:139-143 | `parts[-1]` is a dash-free suffix of the name |
| `ClaudeDetect.DetailLabel` | claude_detect.py:114-115 | the name of a detail entry is the name's last dash-part, a dash-free suffix of it |
| `ClaudeDetect.ProjectLabel` | claude_detect.py:138-144 | the label is the whole name or a dash-free suffix of it, and a drive-form name never gets an empty label |
| `ClaudeDetect.LegacyProjectLabel` | bot.py:600-611 | bot.py's label is the whole name or contains no dash |
| `ClaudeDetect.NonEmpty` | bot.py:606 | `[p for p in parts if p]` keeps exactly the non-empty parts |
| `ClaudeDetect.LabelsAgree` | bot.py:600-611 | whenever the last dash-part is non-empty, claude_detect.py and bot.py give the same label, the last dash-part |
| `ClaudeDetect.LastNonEmpty` | bot.py:606-607 | a non-empty last part is also the last non-empty part |
| `ClaudeDetect.Distinct` | claude_detect.py:130-136 | the `seen` list holds each name once, and exactly the names that occur |
| `ClaudeDetect.DistinctPrefix` | claude_detect.py:131-136 | stopping the walk early keeps a prefix of the full distinct list |
| `ClaudeDetect.RecentNames` | claude_detect.py:130-136 | the kept names are the first distinct names, newest first, never more than `max_count` (at least one is appended before the count is checked); fewer only when there are no more |
| `ClaudeDetect.RecentNamesFull` | claude_detect.py:135-136 | once the walk has collected `max_count` distinct names, those are the result |
| `ClaudeDetect.RecentProjects` | claude_detect.py:130-136 | the loop with its early `break` computes exactly `RecentNames` |
| `ClaudeDetect.ActiveProjectsDetail` | claude_detect.py:100-119 | one entry per kept name, in order, with the last dash-part as name, the directory name and its decoded path |
| `ClaudeDetect.WalkRecent` | claude_detect.py:109-118 | the building walk produces one entry per kept name, in order |
| `ClaudeDetect.ActiveProjects` | claude_detect.py:122-145 | one label per kept name, in order: claude_detect.py's rule, or bot.py's rule in the legacy variant |
| `ClaudeDetect.Entry` | claude_detect.py:155-168 | a window gives an entry exactly when its title and class name can be read and the lower-cased title contains "claude"; the entry carries the window's title, handle, classified state and its label or "" |
| `ClaudeDetect.Scanned` | claude_detect.py:154-168 | every scanned entry passed the filter and carries its title's state |
| `ClaudeDetect.Insert` | claude_detect.py:169-170 | inserting into a sorted list keeps it sorted and adds exactly the one element |
| `ClaudeDetect.SortByRank` | claude_detect.py:169-170 | the result is a permutation of the entries sorted by idle, then thinking, then unknown, larger handle first among equals |
| `ClaudeDetect.WindowScanner.constructor` | claude_detect.py:15-16 | the cache starts empty, stamped at time 0 |
| `ClaudeDetect.WindowScanner.Find` | claude_detect.py:148-173 | within 5 seconds of the last scan the cached list is returned and nothing changes; otherwise the result is the sorted permutation of a fresh scan, which becomes the cache, stamped with the time after the scan |
| `ClaudeDetect.ScanWindows` | bot.py:614-636 | bot.py's uncached scan: the sorted permutation of the filtered entries |
| `ClaudeDetect.ScanEntriesFiltered` | claude_detect.py:157-158 | every window in the sorted result passed the filter and has its title's state |
| `ClaudeDetect.IdleFirst` | claude_detect.py:169-170 | an idle window is listed before every thinking or unknown one |
| `Monitor.FmtElapsed` | monitor.py:22-24 | the label always ends in `s` |
| `Monitor.ParseNatDecimal` | monitor.py:24 | the decimal spelling of a count reads back as that count and holds no `m`, space or sign |
| `Monitor.FmtElapsedRoundTrip` | monitor.py:22-24 | the label names the elapsed seconds exactly: reading `Xm Ys` back as `60X + Y`, or `Ns` as `N`, gives the seconds |
| `Monitor.MinutesRoundTrip` | monitor.py:24 | from one minute on, the minutes and seconds of the label add back up to the elapsed time |
| `Monitor.SecondsRoundTrip` | monitor.py:24 | below one minute the label is the seconds themselves |
| `Monitor.DetectInteractivePrompt` | monitor.py:27-40 | empty text gives nothing; otherwise the result is the tail exactly when the tail holds one of the 14 markers |
| `Monitor.PromptTailLines` | monitor.py:30-31 | the tail is exactly the last (at most 30, at least one) lines of the stripped text |
| `Monitor.SkipSpace` | monitor.py:49 | `\s*` consumes exactly the maximal whitespace run |
| `Monitor.DigitsEnd` | monitor.py:49 | `\d+` consumes exactly the maximal digit run |
| `Monitor.NumberedBeforeMembers` | monitor.py:49 | a number is collected exactly when some earlier line start has it in front of a closing bracket |
| `Monitor.NumberedValuesMembers` | monitor.py:49 | the pattern captures a number exactly when some line start (text start or after a newline) has optional whitespace, an optional `[` or `(`, that number and `]` or `)` |
| `Monitor.ScanNumbered` | monitor.py:49 | the hand-written line scanner finds exactly the numbers the pattern captures |
| `Monitor.ScanAt` | monitor.py:49 | one scan position contributes exactly its own capture |
| `Monitor.DigitsIn` | monitor.py:51 | the listed options are in the set, within range, and strictly ascending |
| `Monitor.DigitsInComplete` | monitor.py:51 | every option from 1 to 9 in the set is listed |
| `Monitor.PromptTypePriority` | monitor.py:43-54 | a yes/no question gives exactly Yes/No; otherwise `❯` gives up/down/enter; otherwise the numbered replies; Yes/No is returned exactly for yes/no questions |
| `Monitor.RepliesForSound` | monitor.py:50-53 | every numbered reply is `n` / `n enter` for a captured number from 1 to 9 |
| `Monitor.RepliesForComplete` | monitor.py:50-53 | every captured number from 1 to 9 gets its reply |
| `Monitor.RepliesForAscending` | monitor.py:51 | the replies ascend, so none repeats |
| `Monitor.RepliesForEmpty` | monitor.py:50-54 | there are no numbered replies exactly when no number from 1 to 9 was captured |
| `Monitor.Emit` | monitor.py:174-178 | sending appends exactly one effect to the log |
| `Monitor.WithStatus` | monitor.py:57-70 | the live status message is edited in place when there is one and the edit succeeds; otherwise a new message is sent and becomes the live one; queue and digest are unchanged |
| `Monitor.WithoutStatus` | monitor.py:73-80 | a live status message is deleted and forgotten; without one nothing happens |
| `Monitor.Photo` | monitor.py:123-128 | a capture is sent as a photo; a failed capture sends nothing; nothing else changes |
| `Monitor.Take` | monitor.py:147 | `s[:n]` is the prefix of length `min(n, len(s))` |
| `Monitor.QueuePreviewOf` | monitor.py:144-151 | there is a preview exactly when the queue is non-empty; monitor.py shows at most five items, bot.py all of them |
| `Monitor.QueueItems` | monitor.py:147 | item `i` is shown as `[i+1]` and its first 20 characters |
| `Monitor.Begin` | monitor.py:96-102 | a first reading of thinking starts the session as working with no grace period and the status line shown; any other reading starts a 5-tick grace period and changes nothing |
| `Monitor.BeginEstablishes` | monitor.py:88-102 | the session invariant holds before the first tick |
| `Monitor.Periodic` | monitor.py:265-276 | the periodic capture changes only the last-capture time, and the stored digest only to the digest of a due capture that differs from it |
| `Monitor.PeriodicSkipsRepeats` | monitor.py:270-271 | a capture whose digest equals the stored one is never sent |
| `Monitor.Response` | monitor.py:208-212 | a forwarded reply has more than 10 characters after stripping; bot.py forwards only the transcript reply (bot.py:903-905) |
| `Monitor.Report` | monitor.py:198-212 | the first half of a completion removes the status line, forgets the digest and only adds to the log; the queue is untouched |
| `Monitor.SessionInv` | monitor.py:90-93 | the session invariant: grace at most 5, at most one idle reading pending, and a session that has not seen work is in its grace period |
| `Monitor.StepKeepsInv` | monitor.py:104-276 | every tick after which the loop goes on keeps the session invariant |
| `Monitor.StepQueue` | monitor.py:214-215 | a tick leaves the queue alone, or removes exactly its front item, and only at a confirmed completion |
| `Monitor.TimeoutFirst` | monitor.py:107-109 | past 3600 seconds the tick only says so in the status line and ends the session |
| `Monitor.MonolithNeverTimesOut` | bot.py:775-978 | bot.py's session never ends by timeout |
| `Monitor.GraceCountsDown` | monitor.py:111-131 | a grace tick with an empty title ends the session; a thinking reading ends the grace period; otherwise grace drops by one and the session ends exactly when it reaches 0; the queue is untouched |
| `Monitor.GraceExpiry` | monitor.py:122-130 | an expired grace period sends the final capture and removes the status line |
| `Monitor.NonIdleResets` | monitor.py:262-263 | outside grace, any reading other than idle clears the pending idle reading |
| `Monitor.FirstIdlePends` | monitor.py:184-187 | the first idle reading after work only records itself |
| `Monitor.RecheckReturnsToThinking` | monitor.py:188-196 | a recheck that shows thinking returns to thinking without completing and says so in the status line |
| `Monitor.CompletionWithEmptyQueue` | monitor.py:246-261 | a completion with an empty queue removes the status line, forgets the digest, asks the operator and ends |
| `Monitor.CompletionInjectFails` | monitor.py:214-241 | with a queued message, exactly the front one is taken; when typing it fails, the status message says so and the session ends |
| `Monitor.CompletionInjects` | monitor.py:214-245 | when typing the front message succeeds, it is typed into the window, the rest of the queue stays in order, and the session restarts its grace period with no state |
| `Monitor.StepCompletes` | monitor.py:184-198 | a confirmed completion is the completion after recording the second idle reading |
| `Monitor.CompletionLog` | monitor.py:198-261 | a completion only adds to the log and leaves the digest forgotten or set by a periodic capture |
| `Monitor.GraceLog` | monitor.py:111-131 | a grace tick only adds to the log and does not touch the digest |
| `Monitor.ThinkingLog` | monitor.py:140-182 | a thinking tick only adds to the log and changes the digest only through a periodic capture |
| `Monitor.IdleLog` | monitor.py:184-261 | an idle tick only adds to the log, and the digest changes only to a new periodic digest or `None` |
| `Monitor.StepLog` | monitor.py:104-276 | every tick only adds to the log; the stored digest changes only to a due, new periodic digest or to `None` at a completion |
| `Monitor.RunTick` | monitor.py:104 | a run is its first tick, continued from that tick's state only when the loop goes on |
| `Monitor.StepCompleted` | monitor.py:246-261 | a tick ends as completed only with an empty queue, no status line and the done/waiting question as the last thing sent |
| `Monitor.RunKeepsInv` | monitor.py:83-276 | the session invariant holds at the start of every tick of a run |
| `Monitor.RunQueueSuffix` | monitor.py:214-215 | over a whole session the queue only loses items from its front |
| `Monitor.RunLog` | monitor.py:83-276 | nothing sent during a session is taken back |
| `Monitor.RunCompleted` | monitor.py:246-261 | a session that ends as completed has drained the queue, removed its status line and finished by asking the operator |
| `Monitor.SharedOf` | config.py:91-98 | the queue, digest, status message and log a session shares with the rest of the bot |
| `Monitor.Send` | monitor.py:174-178 | sending on the bot state is `Emit` |
| `Monitor.UpdateStatus` | monitor.py:57-70 | `_update_status` on the bot state is `WithStatus` |
| `Monitor.DeleteStatus` | monitor.py:73-80 | `_delete_status` on the bot state is `WithoutStatus` |
| `Monitor.SendPhoto` | monitor.py:123-128 | sending a capture on the bot state is `Photo` |
| `Monitor.PeriodicTick` | monitor.py:265-276 | the periodic capture on the bot state is `Periodic` |
| `Monitor.GraceTick` | monitor.py:111-131 | a grace tick on the bot state is the grace step |
| `Monitor.ThinkingTick` | monitor.py:140-182 | a thinking tick on the bot state is `ThinkingStep` |
| `Monitor.CompleteTick` | monitor.py:198-261 | a completion on the bot state is `Completion` |
| `Monitor.ReportTick` | monitor.py:198-212 | the first half of a completion on the bot state is `Report` |
| `Monitor.DrainTick` | monitor.py:214-261 | the second half of a completion on the bot state is `Drain` |
| `Monitor.Dequeue` | monitor.py:214-231 | `popleft` and the announcement on the bot state |
| `Monitor.IdleTick` | monitor.py:184-261 | an idle tick on the bot state is the idle step |
| `Monitor.Tick` | monitor.py:104-276 | one pass of the loop on the bot state is exactly `Step` |
| `Monitor.StepBounds` | monitor.py:104-276 | a tick never grows the queue, and the status message is always one already sent |
| `Monitor.ThinkingBounds` | monitor.py:140-182 | the thinking tick never grows the queue and keeps the status message an issued one |
| `Monitor.IdleBounds` | monitor.py:184-261 | the idle tick never grows the queue and keeps the status message an issued one |
| `Monitor.DrainBounds` | monitor.py:214-261 | draining never grows the queue and keeps the status message an issued one |
| `Monitor.BeginMonitor` | monitor.py:86-102 | the set-up on the bot state is `Begin`, and keeps the state well formed |
| `Monitor.Advance` | monitor.py:104-276 | a tick on a well-formed bot state is `Step` and keeps it well formed |
| `Monitor.MonitorLoop` | monitor.py:83-281 | the whole loop on the bot state is the run of `Step` over the observations from `Begin`; the task is done afterwards |
| `Monitor.Ticks` | monitor.py:104-276 | the `while True` loop on the bot state is `Run` |
| `Monitor.Launch` | monitor.py:284-295 | starting a monitor finishes the recorded task, records a fresh task number as running, and keeps task numbers in order |
| `Monitor.CancelMonitor` | monitor.py:284-288 | a recorded task is finished, and no monitor is recorded or running afterwards |
| `Monitor.StartMonitor` | monitor.py:291-295 | the previous monitor is finished and a new one is running, so at most one monitor runs at a time |
| `Win32Api.VkPress` | win32_api.py:169-175 | `_send_vk` sends key-down then key-up of the same virtual key |
| `Win32Api.UnitPress` | win32_api.py:177-183 | one code unit is sent as key-down then key-up, both with `KEYEVENTF_UNICODE` and that unit as scan code |
| `Win32Api.UnicodePressAsWritten` | win32_api.py:177-183 | as written, the scan code is the character's code point modulo 2^16 |
| `Win32Api.Utf16Units` | win32_api.py:178 | a character has one or two 16-bit code units |
| `Win32Api.Utf16RoundTrip` | win32_api.py:178 | decoding the code units of a character gives it back |
| `Win32Api.DownUnitsConcat` | win32_api.py:177-183 | the key-down units of a concatenation are the units of its parts |
| `Win32Api.UnicodePress` | win32_api.py:177-183 | the corrected send: the key-down units are the character's UTF-16 units and decode to the character |
| `Win32Api.UnicodePressBmp` | win32_api.py:177-183 | below U+10000 the written and the corrected send are the same |
| `Win32Api.UnicodePressAsWrittenLosesAstral` | win32_api.py:177-183 | as written, U+1F600 arrives as U+F600; the corrected send delivers U+1F600 |
| `Win32Api.ReplayConcat` | win32_api.py:169-183 | replaying records one part after the other is replaying their concatenation |
| `Win32Api.NestedConcat` | win32_api.py:169-183 | two properly nested key sequences in a row are properly nested |
| `Win32Api.VkPressNested` | win32_api.py:169-175 | a virtual-key press releases what it presses |
| `Win32Api.UnicodePressNested` | win32_api.py:177-183 | a unicode character press releases what it presses |
| `Win32Api.PasteNested` | win32_api.py:238-246 | the paste is Ctrl down, V down, V up, Ctrl up: properly nested, and not before its last record |
| `Win32Api.MappedToken` | win32_api.py:273-276 | a token whose lower-case form is in `VK_MAP` types exactly one press of its key |
| `Win32Api.UnmappedToken` | win32_api.py:277-281 | any other token, one character or many, types its characters in order |
| `Win32Api.CharsPressNested` | win32_api.py:280-281 | typing characters one by one is properly nested |
| `Win32Api.TokensPressNested` | win32_api.py:273-282 | every key `send_raw_keys` presses is released again, in nesting order |
| `Win32Api.NoTrailingEnter` | win32_api.py:269-287 | the key records end with the last token's own keys: no Enter is added |
| `Win32Api.ReplaceCharConcat` | win32_api.py:213-215 | replacing a character distributes over concatenation |
| `Win32Api.ReplaceAbsent` | win32_api.py:213-215 | replacing a character that does not occur changes nothing |
| `Win32Api.EscapeChainConcat` | win32_api.py:213-215 | the escape chain distributes over concatenation |
| `Win32Api.EscapeChainOne` | win32_api.py:213-215 | on one character the chain gives that character's escape |
| `Win32Api.EscapeChainPerChar` | win32_api.py:213-215 | the six replacements equal the per-character substitution `{`→`{{`, `}`→`}}`, `+`→`{+}`, `^`→`{^}`, `%`→`{%}`, `~`→`{~}` |
| `Win32Api.EscapePlain` | win32_api.py:213-215 | a text without `{}+^%~` passes the escape chain unchanged |
| `Win32Api.FindFrom` | win32_api.py:217 | the first index at or after the start holding the character, or -1 when none does |
| `Win32Api.Then` | win32_api.py:217 | a key string read in two parts gives keys exactly when both parts do |
| `Win32Api.Typed` | win32_api.py:217 | typing drops newlines only: without one, the keys are the text's characters one for one |
| `Win32Api.EnterCode` | win32_api.py:221 | `{ENTER}` presses Enter once |
| `Win32Api.ReadRelease` | win32_api.py:217 | `{a up}` releases `a` and sends nothing else |
| `Win32Api.ReadDoubledOpen` | win32_api.py:213-217 | a doubled `{` makes `type_keys` raise unless the code it opens, closed by a later `}`, is a key event |
| `Win32Api.FindReserved` | win32_api.py:213-215 | the first index at or after the start holding one of `}+^%~`, or -1 when none does |
| `Win32Api.TypedEscaped` | win32_api.py:213-217 | read on the text itself: a `}` anywhere makes `type_keys` raise, and a text without braces is typed as its characters, newlines dropped |
| `Win32Api.ReadEscapeStep` | win32_api.py:213-217 | one escaped character other than `{` read in front of the rest: `}` raises, a newline is skipped, anything else is typed as itself |
| `Win32Api.ReadEscapedOpen` | win32_api.py:213-217 | an escaped `{` in front opens a key event exactly when a blank and a word starting with `up` or `down` follow it up to the next of `+^%~`: `{` is then only pressed and reading goes on after that character; otherwise `type_keys` raises |
| `Win32Api.ReadOpenCoded` | win32_api.py:213-217 | a doubled `{` closed by an escaped `+^%~` presses `{` when its code is a key event, never releases it, since the stripped word ends in that character, and raises otherwise |
| `Win32Api.KeyEventEscaped` | win32_api.py:213-217 | that code is a key event exactly when the text has a blank and a key word there |
| `Win32Api.ReadEscapeEach` | win32_api.py:213-217 | `type_keys` on the per-character escapes of a text without parentheses reads exactly what `TypedEscaped` says: a `}` raises; a `{` raises unless it opens a key event, which presses `{` and swallows the word and the next of `+^%~`; every other character is typed, newlines dropped |
| `Win32Api.ReadEscapeChain` | win32_api.py:213-217 | the same for the escape chain itself, so whether `send_keys_to_window` types or pastes a text, and what it types, is what `TypedEscaped` says |
| `Win32Api.HeldOpenBrace` | win32_api.py:213-217 | as written, `{`, a blank, a key word and then one of `+^%~` make `type_keys` press `{` and send nothing else |
| `Win32Api.DownTildeHoldsBrace` | win32_api.py:213-217 | `{ down~` is read as `{` pressed and nothing else |
| `Win32Api.ParensVanish` | win32_api.py:213-217 | as written, a character followed by a parenthesised one, such as `f(x)`, is typed as the two characters: the parentheses never arrive |
| `Win32Api.NewlinesVanish` | win32_api.py:213-217 | as written, two characters around a newline are typed as the two characters: the newline never arrives |
| `Win32Api.ReadIntactEach` | win32_api.py:213-217 | spelling every reserved character as a one-character code makes `type_keys` type a newline-free text exactly |
| `Win32Api.KeystrokeText` | win32_api.py:213-217 | the corrected keystroke text exists exactly for a text without newlines, and `type_keys` types it as exactly the text's characters |
| `Win32Api.Keys` | win32_api.py:174 | each keyboard record becomes one event, in order |
| `Win32Api.ActivationEvents` | win32_api.py:186-200 | one or two focus requests, both for the target |
| `Win32Api.Desktop.constructor` | win32_api.py:186-200 | the desktop starts with no events and no foreground reading |
| `Win32Api.Desktop.ActivateWindow` | win32_api.py:186-200 | focus is asked once, and again only if the first reading shows another window; the result is exactly whether the last reading is the target |
| `Win32Api.Desktop.SendVk` | win32_api.py:169-175 | logs exactly the virtual-key press |
| `Win32Api.SendKeysOutcome` | win32_api.py:203-253 | `send_keys_to_window` succeeds exactly when `type_keys` accepts the escaped text on a connected window or the clipboard works; a success ends with a `VK_RETURN` press; a failure only asked for focus; the foreground is read one to four times |
| `Win32Api.KeystrokeEffect` | win32_api.py:208-227 | when `type_keys` reads the escaped text on a connected window, the events are the first activation, the typed keys, the second activation, `{ENTER}` and `VK_RETURN` |
| `Win32Api.SendKeysTypes` | win32_api.py:208-227 | a text without braces or parentheses is typed as its characters, newlines dropped, and the clipboard is not touched |
| `Win32Api.SendKeysBraceIsPasted` | win32_api.py:213-237 | a text without parentheses whose escapes `type_keys` cannot read (any text with a `}`, or with a `{` that opens no key event) is copied to the clipboard whole and nothing is typed |
| `Win32Api.PasteEffect` | win32_api.py:228-250 | when `type_keys` raises on the escaped text, the clipboard path is taken: the copy right after the first activation, and no typed keys |
| `Win32Api.SendKeysHoldsBrace` | win32_api.py:208-227 | a text made of `{`, a blank, a key word and one of `+^%~` reports success on the keystroke path: the window only gets `{` pressed, and the clipboard is not touched |
| `Win32Api.Desktop.SendUnicodeChar` | win32_api.py:177-183 | logs exactly the press as written: the code point's low 16 bits down, then up |
| `Win32Api.Desktop.SendRawKeys` | win32_api.py:269-287 | activates the window, types every token's keys as written, in order, whatever the activation gave, adds nothing else, and reports success |
| `Win32Api.Desktop.SendToken` | win32_api.py:273-282 | logs exactly the keys of one token as written |
| `Win32Api.Desktop.SendKeysToWindow` | win32_api.py:203-253 | the success, the new event log and the new number of foreground readings are exactly those of `SendKeysEffect` for the readings so far, so `SendKeysOutcome`, `SendKeysTypes`, `SendKeysBraceIsPasted` and `SendKeysHoldsBrace` hold of every call |
| `Win32Api.Desktop.TypeThenEnter` | win32_api.py:208-227 | the log grows by exactly the typed keys, the second activation, `{ENTER}` and a `VK_RETURN` press, and the foreground readings by the second activation's |
| `Win32Api.Desktop.PasteThenEnter` | win32_api.py:229-250 | the log grows by exactly the clipboard copy, the second activation, Ctrl+V and a `VK_RETURN` press, and the foreground readings by the second activation's |
| `Utils.RFindNewline` | utils.py:37 | the last newline before `end`, or -1 when there is none |
| `Utils.CutPoint` | utils.py:37-39 | a cut is at most `max_len` characters in, and is 0 only when the text starts with a newline |
| `Utils.AfterCut` | utils.py:41 | what remains is strictly shorter, so the loop ends |
| `Utils.SplitText` | utils.py:29-42 | the loop computes exactly the chunks of `split_text` |
| `Utils.ChunksFromStep` | utils.py:33-41 | one pass appends the text before the cut and continues with the rest |
| `Utils.ChunksFromBounded` | utils.py:33-41 | every chunk fits the limit |
| `Utils.SplitTextBounded` | utils.py:29-42 | every chunk of `split_text` has at most `max_len` characters (3500 here, 4000 in bot.py:647-660) |
| `Utils.SplitTextShort` | utils.py:30-31 | a text within the limit is one chunk, itself |
| `Utils.DropNewlinesConcat` | utils.py:41 | removing newlines distributes over concatenation |
| `Utils.LStripNewlinesKeepsText` | utils.py:41 | `lstrip("\n")` loses only newlines |
| `Utils.CutKeepsText` | utils.py:40-41 | a cut loses only newlines |
| `Utils.ChunksKeepText` | utils.py:33-41 | the chunks without newlines are the text without newlines |
| `Utils.SplitTextKeepsText` | utils.py:29-42 | only newlines are lost: nothing else is dropped, added or reordered |
| `Utils.Cells` | utils.py:57 | a table line has at least one cell |
| `Utils.Rows` | utils.py:55-58 | one row per table line |
| `Utils.DataRows` | utils.py:60 | exactly the rows that are not separator rows remain |
| `Utils.NCols` | utils.py:64 | the column count is the length of the longest row |
| `Utils.ColumnWidth` | utils.py:66-69 | a column is as wide as its longest cell, and no cell exceeds it |
| `Utils.ColumnWidths` | utils.py:65-69 | the widths loop computes each column's width |
| `Utils.Ljust` | utils.py:75 | `ljust` keeps the cell and pads it with blanks to at least the width |
| `Utils.Widths` | utils.py:64-69 | one width per column |
| `Utils.RowLines` | utils.py:71-76 | one formatted line per row |
| `Utils.WithRuleShape` | utils.py:71-78 | the row lines in order, with the dash rule second |
| `Utils.FormatTableLines` | utils.py:71-78 | a formatted table is one line per row, in order, with the dash rule after the first |
| `Utils.WidthsFit` | utils.py:64-75 | every cell is padded to exactly its column's width, which is the length of some cell |
| `Utils.RowsSnoc` | utils.py:56-58 | parsing one more line adds its row |
| `Utils.FlushTableEmpty` | utils.py:52-53 | nothing pending, nothing flushed |
| `Utils.FormatRows` | utils.py:71-78 | the formatting loop computes the formatted table |
| `Utils.Flush` | utils.py:51-78 | `_flush_table` parses, drops separator rows and formats |
| `Utils.MdTableToText` | utils.py:45-88 | the line loop computes exactly the converted text |
| `Utils.ConvertStep` | utils.py:80-86 | a table line is held back; any other line flushes the table and is kept |
| `Utils.ConvertNoTable` | utils.py:80-87 | without table lines every line is kept, in order |
| `Utils.MdTableTextNoTable` | utils.py:45-88 | a text without table lines comes back unchanged |
| `Utils.ConvertKeepsLine` | utils.py:83-86 | a non-table line after a table comes right after the table's lines |
| `Utils.ConvertTableRun` | utils.py:81-82 | a run of table lines is held back as one table |
| `Utils.NeedsFile` | utils.py:245-248 | true exactly when the text is longer than 200 characters or contains one of `{ } " $ \` |
| `Utils.WithoutPath` | utils.py:215 | exactly the entries that do not normalise to the path remain, in order |
| `Utils.SaveRecentDir` | utils.py:212-217 | the normalised path comes first, then the other entries in their order, cut to 8 |
| `Utils.SaveRecentDirOnce` | utils.py:212-217 | with an idempotent normalisation, the saved path occurs once, at the front, and every other entry was already in the list |
| `Utils.ResolvedSpec` | utils.py:116-127 | a live cached window is kept; otherwise the first scanned window is returned and cached; nothing is returned only when the scan is empty, and then no truthy handle stays cached |
| `Utils.GetHandle` | utils.py:116-127 | `_get_handle` on the bot state returns and caches what `Resolved` says |
| `Utils.Numbered` | utils.py:96-97 | one message per chunk |
| `Utils.SendResult` | utils.py:91-101 | the messages are the numbered chunks of the flattened text, with blank output replaced |
| `Utils.NumberChunks` | utils.py:96-101 | the `enumerate` loop computes the numbered messages |
| `Utils.NumberedShape` | utils.py:96-97 | each message ends with its chunk; with several chunks it starts with `**[i/n]**`; a single chunk is sent bare |
| `Utils.BlankResultIsOneMessage` | utils.py:92-95 | blank output is sent as the one placeholder message |
| `Utils.EmptyOutputKept` | utils.py:92-94 | the placeholder passes the table conversion unchanged |
| `Handlers.PayloadNeedsNoFile` | handlers.py:577-581 | the file instruction itself needs no file when the saved path is short and safe |
| `Handlers.InjectRoutes` | handlers.py:571-622 | no truthy window, a full queue (50), a queued message, a failed or a successful typing attempt, each exactly when its condition holds; a failed attempt forgets the target window |
| `Handlers.InjectQueue` | handlers.py:586-609 | only queueing changes the queue: the payload joins the back, the chat is recorded, the numbered queue is shown, and a monitor runs afterwards (the running one is kept) |
| `Handlers.InjectReports` | handlers.py:571-622 | a refusal is one reply; queueing and refusals leave the status line; typing sends the payload, then updates the status line; nothing sent is taken back |
| `Handlers.InjectStartsMonitor` | handlers.py:607-622 | a monitor is started by queueing while none runs, or by a successful typing attempt with automatic monitoring on; otherwise the tasks are untouched |
| `Handlers.InjectToClaude` | handlers.py:571-622 | `_inject_to_claude` on the bot state does exactly what `Inject` says (also bot.py:1729-1787) |
| `Handlers.Enqueue` | handlers.py:586-609 | the working branch on the bot state |
| `Handlers.Push` | handlers.py:590-604 | below capacity the payload joins the back of the queue and the numbered queue is shown |
| `Handlers.TypeIn` | handlers.py:611-622 | the idle branch on the bot state |
| `Handlers.TypingFailed` | handlers.py:614-617 | a failed attempt forgets the target and says so in the status line |
| `Handlers.TypeAndReport` | handlers.py:619-622 | a successful attempt says so in the status line and starts a monitor when automatic |
| `Handlers.QueueClear` | handlers.py:372-375 | the queue is emptied, and the operator is told how many messages it held |
| `Handlers.ClampDelay` | handlers.py:133 | the interval lies between 3 and 300, equals the request inside that range, and is the nearer bound outside it |
| `Handlers.DelayCases` | handlers.py:127-137 | no argument shows the interval; a number sets the clamped interval; anything `int()` rejects leaves it unchanged |
| `Handlers.CmdDelay` | handlers.py:127-137 | `/delay` on the bot state sets the interval and sends the reply `Delay` says |
| `Handlers.CmdAuto` | handlers.py:140-142 | automatic monitoring is switched over and the new setting reported |
| `Handlers.StripSlice` | handlers.py:627 | `strip()` removes only surrounding whitespace |
| `Handlers.StripKeeps` | handlers.py:627 | stripping keeps a part that starts and ends with non-whitespace |
| `Handlers.StripKeepsRange` | handlers.py:627 | stripping keeps every stretch that starts and ends with non-whitespace |
| `Handlers.BlockedAnywhere` | handlers.py:626-628 | a command containing any spelling of a dangerous pattern that lowercases to it, with anything around it, is refused |
| `Handlers.PatternEdges` | handlers.py:626 | no dangerous pattern starts or ends with whitespace |
| `Handlers.RunShell` | handlers.py:625-630 | the command is refused exactly when handlers.py's blocklist matches (bot.py:1790 has none); a refusal is one reply, anything else sends nothing here |
| `Handlers.Answered` | handlers.py:518-568 | a route's replies are appended to the log |
| `Handlers.MessageRoutes` | handlers.py:518-568 | blank text is ignored; then a pending label, a panel button, a pending new directory, `!`, stream mode and injection, each taken exactly when every earlier test fails and its own holds |
| `Handlers.CommandBranch` | handlers.py:556-568 | the last three tests: `!`, then stream mode, then injection |
| `Handlers.MessageLabel` | handlers.py:523-532 | a pending label stores the first 20 characters, is used up and is confirmed; every other route leaves the labels and the pending label alone |
| `Handlers.CommandKeeps` | handlers.py:556-568 | the last three branches leave the labels and the new-directory flag alone |
| `Handlers.ShelledIsShell` | handlers.py:556-560 | `!` leads to a shell route |
| `Handlers.MessageHistory` | handlers.py:562-567 | streamed and injected texts enter the 20-entry history in handlers.py (not in bot.py:1674-1726); nothing else touches it |
| `Handlers.MessageSlice` | handlers.py:518-568 | only injection changes the state beyond the log, as `Inject` says; the new-directory flag is used up exactly by the new-directory route |
| `Handlers.CommandSlice` | handlers.py:556-568 | the last three branches: only injection changes the state beyond the log |
| `Handlers.MessageShell` | handlers.py:556-560 | `!` and a command runs the stripped command unless refused, with one reply for a refusal; a bare `!` does nothing |
| `Handlers.CommandShell` | handlers.py:556-560 | the same for the last three branches |
| `Handlers.ShellStepShape` | handlers.py:556-560 | the same for the `!` branch on its own |
| `Handlers.ShellForShape` | handlers.py:557-559 | the shell route for a stripped command and what it sends |
| `Handlers.PassRoute` | handlers.py:562-568 | text that is not a shell command is streamed or injected |
| `Handlers.HandleMessage` | handlers.py:518-568 | `handle_message` on the bot state does exactly what `Message` says for the stripped text |
| `Handlers.Dispatch` | handlers.py:520-568 | the dispatch after stripping, on the bot state |
| `Handlers.StoreLabel` | handlers.py:524-532 | the label is the first 20 characters, stored for the pending window and confirmed |
| `Handlers.RunCommand` | handlers.py:556-568 | the last three branches on the bot state |
| `Handlers.PassOn` | handlers.py:562-568 | recording and streaming or injecting, on the bot state |
| `Handlers.ShellRoute` | handlers.py:556-560 | the `!` branch on the bot state |
| `Handlers.LastSep` | handlers.py:700 | the last path separator, or -1 |
| `Handlers.LastDot` | handlers.py:695 | the last dot, or -1 |
| `Handlers.Extension` | handlers.py:695 | the extension is a separator-free suffix that starts with its only dot |
| `Handlers.ExtensionOfName` | handlers.py:695 | a name with a non-dot stem and a one-dot suffix has that suffix as its extension |
| `Handlers.DotFileHasNoExtension` | handlers.py:695-696 | `.env` has no extension, so an upload named `.env` is refused although `.env` is listed |
| `Handlers.SplitDrive` | handlers.py:700-703 | the drive and the rest make up the path; there is a drive exactly when the second character is a colon, and it is the first two characters |
| `Handlers.Basename` | handlers.py:700 | the base name is a separator-free suffix of the path |
| `Handlers.DropDotPairs` | handlers.py:700 | `replace("..", "")` leaves no `..`, and keeps the first character when it is not a dot |
| `Handlers.DropDotPairsNoSep` | handlers.py:700 | `replace("..", "")` adds no path separator to a name that had none |
| `Handlers.SafeUploadNameIsSafe` | handlers.py:700-702 | the saved name is never empty, has no separator, no `..`, and no surrounding whitespace (it may start with a drive) |
| `Handlers.SliceKeeps` | handlers.py:700 | stripping keeps the absence of `..` and of separators |
| `Handlers.NoDotPairNoDots` | handlers.py:700 | without two adjacent dots, `..` occurs nowhere |
| `Handlers.JoinPath` | handlers.py:703 | `ntpath.join` with drive letters: the joined path ends with the name's part after its drive |
| `Handlers.JoinSep` | handlers.py:703 | the directory gets at most one backslash added |
| `Handlers.JoinInDir` | handlers.py:703 | a name without drive or separator is joined inside the directory, after at most one backslash |
| `Handlers.JoinOtherDrive` | handlers.py:703 | a name on another drive, ignoring case, replaces the directory altogether |
| `Handlers.UploadLeavesCwd` | handlers.py:693-703 | as written, the upload `..d:x.py` is accepted, saved as `d:x.py`, and that joined to `C:\proj` is `d:x.py`, outside the working directory |
| `Handlers.SafeUploadNameInDirIsSafe` | handlers.py:700-702 | the corrected name, colons removed before `..`, is safe and holds no colon |
| `Handlers.UploadStaysInCwd` | handlers.py:700-703 | the corrected name is always joined directly inside the working directory |
| `Handlers.DriveFreeJoin` | handlers.py:700-703 | a saved name that does not start with a drive lands inside the working directory |
| `Handlers.DocumentText` | handlers.py:693-708 | an upload is refused exactly when its lower-cased extension is not listed; otherwise the injected text ends with the saved name's part after its drive |
| `Handlers.SavedFileText` | handlers.py:700-708 | the injected text is the stripped caption (or the default one), a space and the path; unless the saved name starts with a drive, that path is the name inside the working directory |
| `Handlers.HandleDocument` | handlers.py:693-708 | an unsupported upload gets one reply naming its extension; a supported one is confirmed, and `DocumentText`'s text is injected through handlers.py's `_inject_to_claude` without the file check |
| `Handlers.SaveAndInject` | handlers.py:699-708 | the supported branch on the bot state: one confirmation naming the file, then the injection |
| `Text.Strip` | config.py:28 | `strip()` leaves no surrounding whitespace and keeps a whitespace-free text |
| `Text.ContainsIff` | claude_detect.py:25 | `in` on strings holds exactly when the pattern occurs at some position |
| `Text.JoinSplit` | claude_detect.py:94-96 | joining the parts of a split gives the text back |
| `Text.SplitJoin` | claude_detect.py:94-96 | splitting joined separator-free parts gives them back |
| `Text.JoinSplitReplace` | claude_detect.py:96 | re-joining split parts with another separator swaps the separator |
| `Text.SplitCount` | claude_detect.py:94-95 | a text splits into two or more parts exactly when it holds the separator |
| `Text.Lower` | claude_detect.py:157 | `lower()` works character by character |
| `Text.DecimalRoundTrip` | monitor.py:53 | the decimal spelling of a number reads back as the number |
| `Text.ParseIntRoundTrip` | config.py:31 | `int(str(i)) == i` |

## Findings

The operations model the program as written. Each finding also states the
corrected definition beside it, with the intended property proved about it.

| source | as written | input that shows it | evidently intended | confidence | as-written member | corrected member |
|---|---|---|---|---|---|---|
| win32_api.py:177-183 (also bot.py:447-455) | `ord(char)` is stored in the 16-bit `wScan` field of a `KEYEVENTF_UNICODE` record, which keeps only the low 16 bits | `send_raw_keys` with a token holding U+1F600 sends scan code 0xF600, so the window receives U+F600 | a character above U+FFFF is sent as its UTF-16 surrogate pair, one down/up pair per code unit | not executed | `Win32Api.UnicodePressAsWritten` (`Win32Api.UnicodePressAsWrittenLosesAstral`) | `Win32Api.UnicodePress` (`Win32Api.UnicodePressBmp`, `Win32Api.Utf16RoundTrip`) |
| win32_api.py:213-217 (also bot.py:490-494) | the escape chain doubles braces and wraps each of `+^%~` in braces, but leaves parentheses alone, and `type_keys` runs without `with_newlines` | `f(x)` is typed as `fx`; `a` newline `b` is typed as `ab`; `a{b` makes `type_keys` raise and goes to the clipboard instead; `{ down~` is read as a key event, so the window only gets `{` pressed and the rest of the text is lost | the window receives the text as written | not executed | `Win32Api.ReadEscapeChain` (`Win32Api.ParensVanish`, `Win32Api.NewlinesVanish`, `Win32Api.HeldOpenBrace`, `Win32Api.SendKeysHoldsBrace`) | `Win32Api.KeystrokeText` (`Win32Api.ReadIntactEach`) |
| handlers.py:700-703 | the base name loses `..` after `basename`, which can leave a drive such as `d:` at its front, and `os.path.join` then drops the working directory | an upload named `..d:x.py` is saved as `d:x.py`, on drive D, whatever `state["cwd"]` is on drive C | the upload is saved inside the working directory | not executed | `Handlers.JoinPath` (`Handlers.UploadLeavesCwd`) | `Handlers.SafeUploadNameInDir` (`Handlers.UploadStaysInCwd`) |

## Left out

- Telegram transport: messages, edits, photos and inline keyboards are entries in the effect log. Their wording is a tagged `Reply`/`StatusText`. Send failures are not modelled, except the failed status edit (`editOk`).
- `send_result`'s HTML and plain-text fallbacks and `html.escape`: only the first (Markdown) attempt of each message is modelled. bot.py's `send_result` is not modelled.
- `Monitor.Dequeue`: the notice announcing a queued message at completion is taken to be delivered and becomes the status message. A failed send of it, which leaves no status message, is not modelled.
- `Monitor.Report`: the reply is sent as one `send_result` effect. Its chunking is `Utils.SendResult`.
- The `asyncio.CancelledError` and generic exception handlers of `_monitor_loop`: cancellation is modelled only as the task being done (`Monitor.CancelMonitor`).
- `Monitor.MonitorLoop`: runs over a finite sequence of observations. A session that never breaks out is covered tick by tick, not as an infinite run.
- Screenshot capture, the MD5 image hash, `asyncio.sleep` and `time.sleep`: a capture is `Option<Screenshot>`, known by its digest. The timing is not modelled.
- Float time: elapsed time is whole seconds, so `int(time.time() - start)` is the input itself.
- `read_terminal_text` and `read_last_transcript_response`: UIA reads and JSONL parsing are file and OS I/O. Their results are observations.
- Directory listing, `os.path.isdir` and modification-time sorting in `_get_active_projects*`: the names arrive newest first.
- `_launch_new_claude` and the bodies of the panel commands: the model records only which route `handle_message` takes.
- `_stream_send` and stream mode: a streamed text is a route.
- Shell execution and its output in `_run_shell`: only the blocklist guard is modelled.
- File download, `_save_msg_file` and `_save_labels`: the saved path is an input (`World.savedPath`), and the labels live in memory.
- JSON persistence of labels and recent directories: `Utils.SaveRecentDir` works on the loaded list, and `os.path.normpath` is a parameter.
- `ntpath`: `Handlers.SplitDrive`, `Handlers.Basename`, `Handlers.Extension` and `Handlers.JoinPath` model drive letters and both separators. UNC prefixes are not modelled.
- `Handlers.SafeUploadNameIsSafe`: does not promise that the saved path stays in the working directory, because as written it does not (see Findings); `Handlers.UploadStaysInCwd` states it of the corrected name.
- `Win32Api.ReadKeys`: of pywinauto's key syntax, only what the escape chain can produce is read as `type_keys` reads it: one-character codes, `{ENTER}`, and key events on one character (`{a down}`, `{a up}`). Named keys, repeat counts and key events on a named key are read as raising, and so are raw `+ ^ %` modifiers, which the chain never leaves. pywinauto sends the characters after a key event as escaped key actions; the model types them as plain characters.
- `Win32Api.Desktop.SendKeysToWindow`: whether pywinauto connects to the window and whether `clip.exe` succeeds are inputs (`connected`, `clipboardOk`); the `{ENTER}` keys are logged as typed, since that call cannot fail on its own text.
- `ClaudeDetect.SortByRank`: states a sorted permutation. Python's sort stability is not stated.
- `Text.Lower`: Unicode case mapping is modelled for ASCII letters and the Kelvin sign only. Every pattern compared against is ASCII or caseless.
- `Text.ParseInt`: `int()` and `\d` are modelled on ASCII digits only.
- Whisper voice transcription, stream_mode.py, notify_hook.py, watchdog.py, health.py and the test_stream scripts: these are outside the bot's decision logic.
