# claude-session-topics in Dafny

claude-session-topics keeps a short topic line for every Claude Code session.
A Stop hook runs after each assistant turn and counts the turn. When a topic
is due, it takes a per-session lock, finds context for the conversation and
launches a detached background worker. The context comes from the claude-mem
database first, then from the session's transcript. The worker asks a small
model for a topic, stores it and releases the lock. A status-line command
renders the stored record.

This project models that core and proves properties of it:

- `Schedule` (`schedule.dfy`) is the generation schedule: the ramp at counts
  1, 2, 3, 5 and 8, then a topic every `regenInterval` turns.
- `Validation` (`validation.dfy`) is the session-id check. The two anchored
  regular expressions are recursive matchers, and an independent
  position-by-position layout describes the same languages.
- `Display` (`display.dfy`) is the status-line cascade and the age buckets.
  The clock is a parameter.
- `SessionStore` (`store.dfy`) is the per-session record and a `StateDir`
  class. The class holds a map of records and a ghost log of side effects:
  reads, writes, lock calls, spawns and topic requests.
- `HookHandler` (`hook_handler.dfy`) is `handleStopHook`, a module-level
  imperative method that takes a `StateDir`. It is specified by pure functions of the stored
  record and of an `Environment`. The environment gathers the clock, the
  lock's answer, the memory context, the file system and the exceptions.
- `BackgroundGenerator` (`background_generator.dfy`) is the worker's `main`,
  with the topic generator as a parameter.
- `Transcript` (`transcript.dfy`) holds the transcript path mangling,
  `extractTextFromContent`, and `parseTranscript`. The loop of
  `parseTranscript` is a method proved against `TranscriptContext`.
  `JSON.parse` of one line is a parameter.
- `TopicGenerator` (`topic_generator.dfy`) is the TypeScript prompt and the
  first-line post-processing of the model's output.
- `DistTopicGenerator` (`dist_topic_generator.dfy`) is the compiled
  generator. Its prompt carries the previous topic. The single-quote
  escaping is proved to survive the shell's quoting rules (sections 2.2.1
  and 2.2.2 of the Shell Command Language, IEEE Std 1003.1).
- `Strings` (`strings.dfy`) holds the JavaScript string operations these
  modules use: `split`, `join`, `trim`, `slice`, a global one-character
  `replace`, and number-to-text.

The compiled `dist/schedule.js` and `dist/validation.js` have the same logic
as their sources. The same Dafny functions model both.

## Model

| member | source | states |
|---|---|---|
| Schedule.ShouldGenerate | src/schedule.ts:1-21 | An empty topic is always due. The ramp counts 1, 2, 3, 5 and 8 are due. With a topic and count at most 8, a count is due iff it is a ramp count. Past 8 with `r > 0`, it is due iff `(count - 8) % r == 0`. Past 8 with `r == 0` (a `NaN` remainder) it is never due. |
| Schedule.CeilDiv | src/schedule.ts:31 | `Math.ceil(a / b)` as the integer `q` with `a <= q*b < a + b`. |
| Schedule.NextGenerationAt | src/schedule.ts:23-33 | Below 8: the least ramp threshold strictly above the count. From 8: the point `n` of the periodic phase with `count <= n < count + r`. |
| Schedule.DueAtNextGeneration | src/schedule.ts:3-33 | `shouldGenerate(nextGenerationAt(c, r), t, r)` holds for every topic `t`. |
| Schedule.NextGenerationIsFirstDue | src/schedule.ts:3-33 | With a topic, no count strictly between `c` and `nextGenerationAt(c)` is due. From 8, `c` itself is due iff it is its own next point. |
| Schedule.NextGenerationMonotone | src/schedule.ts:23-33 | `nextGenerationAt` is monotone in the count. |
| Schedule.NextGenerationIsOnlyPeriodicPoint | dist/schedule.js:29-31 | From 8, any count `n` with `c <= n < c + r` and `(n - 8) % r == 0` is the next point: the closed form `8 + ceil((c - 8) / r) * r` is the only periodic point in that window. |
| Schedule.ScheduleVectors | src/schedule.test.ts:6-39 | The unit-test vectors: due at 0, 1 and 10 without a topic; at 2, 3, 5, 8, 18, 28 and 38 with one; not at 4, 6 and 7. Next point: 0→1, 1→2, 2→3, 4→5, 9→18, 20→28. |
| Validation.HexRunIffAll | src/validation.ts:2-3 | `[a-f0-9]*` matches exactly the strings of lower-case hex characters. |
| Validation.GroupStep | src/validation.ts:2 | The dash-separated group matcher consumes a hex group of the leading width, one dash, then the remaining groups. |
| Validation.UuidGroupsAt | src/validation.ts:2 | `UUID_REGEX` matches iff the string has 36 characters, dashes at 8, 13, 18 and 23, and hex in the five groups between them. |
| Validation.UuidRegexIsLayout | src/validation.ts:2 | The UUID matcher accepts exactly the layout: 36 characters, `-` at 8, 13, 18 and 23, `[0-9a-f]` elsewhere. |
| Validation.AgentRegexIsLayout | src/validation.ts:3 | The agent matcher accepts exactly `agent-` followed by seven hex characters. |
| Validation.ValidIffLayout | src/validation.ts:5-7 | An id is accepted iff it has the UUID layout or the agent layout. |
| Validation.AcceptedIdShape | dist/validation.js:2-5 | Every accepted id is 36 or 13 characters long and consists of lower-case letters, digits and `-` only. |
| Validation.UpperCaseRejected | src/validation.ts:2-3 | An id containing an upper-case letter is rejected. |
| Validation.AgentDigitCountIsExact | src/validation.ts:3 | `agent-` with six or eight digits is rejected. |
| Validation.UuidFromGroups | src/validation.ts:2 | Five hex groups of widths 8, 4, 4, 4 and 12 joined by dashes match `UUID_REGEX`. |
| Validation.UuidVectorAccepted | src/validation.ts:5-7 | The test UUID `a1b2c3d4-e5f6-4789-a123-b456c789d012` is accepted. |
| Validation.AgentVectorAccepted | src/validation.ts:5-7 | `agent-abc1234` is accepted. |
| Validation.RejectedVectors | dist/validation.js:4-5 | `invalid`, the empty string and `agent-` are rejected. |
| Display.HoursText | src/display.ts:14-15 | The hour bucket is `~`, the hours in decimal, then `h`. |
| Display.FormatAge | src/display.ts:5-16 | The age buckets: under 300 s `now`, under 900 s `~10m`, under 1800 s `~20m`, under 3600 s `~45m`, under 7200 s `~1h`. Otherwise `~Hh`, where the digits read back as `H >= 2` with `H` hours `<= age < H + 1` hours. |
| Display.CountdownText | src/display.ts:42 | `Topic: in N messages` with `N` rendered in decimal. |
| Display.CountdownTextInjective | src/display.ts:42 | Different remaining counts give different texts. |
| Display.Countdown | src/display.ts:35-42 | `Generating topic...` iff count >= 8 and `(count - 8) % r == 0`. Otherwise the next point lies strictly ahead, and the text names the number of turns until it. |
| Display.CountdownIsNotGenerating | src/display.ts:38-42 | A countdown text never equals `Generating topic...`. |
| Display.CountdownMeansNextDue | src/display.ts:35-42 | If the countdown says `N` then `N >= 1`. With a topic, the count `N` turns ahead is due and none in between is. |
| Display.FormatTopicDisplay | src/display.ts:18-43 | The cascade: no record gives `Topic: after 1 message`; a topic gives `topic (age)`; then a non-sentinel error verbatim; otherwise the countdown. The sentinel never shows when there is no topic. |
| Display.TopicHidesErrorAndCount | src/display.ts:24-27 | With a topic, neither the error nor the count affects the text. |
| Display.DisplayVectors | src/display.ts:18-43 | Counts 1 and 4 with no topic show `Topic: in 1 messages`. No record shows the no-state text. |
| SessionStore.Lookup | src/hook-handler.ts:40 | The stored record when the session has one, nothing otherwise. |
| SessionStore.StateDir.ReadState | src/hook-handler.ts:40 | Returns the stored record, changes no record, and logs the read. |
| SessionStore.StateDir.WriteState | src/hook-handler.ts:62 | Replaces this session's record only, and logs the write. |
| SessionStore.StateDir.RequestLock | src/hook-handler.ts:69 | Logs the `acquireLock` call; records unchanged. |
| SessionStore.StateDir.ReleaseLock | src/hook-handler.ts:104 | Logs the `releaseLock` call; records unchanged. |
| SessionStore.StateDir.ForceReleaseLock | src/background-generator.ts:78 | Logs the `forceReleaseLock` call; records unchanged. |
| SessionStore.StateDir.Spawn | src/hook-handler.ts:118-124 | Logs the worker launch with its arguments; records unchanged. |
| SessionStore.StateDir.RequestTopic | src/background-generator.ts:46-50 | Logs the `generateTopic` call with context, source and previous topic; records unchanged. |
| HookHandler.ThrownMessage | src/hook-handler.ts:138 | The stored error is the `Error`'s message, or `unknown error` for any other thrown value. |
| HookHandler.BusyAsWritten | src/hook-handler.ts:69 | As written, `!acquireLock(...)` negates a Promise and is never true. |
| HookHandler.BusyAwaited | src/hook-handler.ts:69 | On the awaited value, the lock is busy iff it was refused. |
| HookHandler.TranscriptFilePath | src/hook-handler.ts:88 | A given `transcript_path` wins. Otherwise the path is present iff the mangled transcript file exists, and it is that path. |
| HookHandler.ResolveContextSources | src/hook-handler.ts:82-97 | Memory context wins when non-empty. A transcript context is non-empty, read from the existing file at the transcript path. No path gives no context. Only the file's size check throws. |
| HookHandler.StopHookCounts | src/hook-handler.ts:34-75 | Only an invalid id is rejected. The count written is the stored count (0 if none) plus 1, and the topic is unchanged. The time is `now`. The due test uses the new count. Busy iff due and the lock is busy. Not-due and busy keep the error. With the awaited lock test (see ## Findings). |
| HookHandler.UnderLockKeepsRecord | src/hook-handler.ts:79-141 | Every outcome under the lock is a generating path that keeps the count and topic and stamps `now`. |
| HookHandler.StopHookErrors | src/hook-handler.ts:99-141 | Waiting stores `waiting for conversation`. Dispatch clears the error and launches `[id, context, source, tempDir]`, with source `claude-mem` iff the memory context is non-empty. A failure stores the thrown message, thrown by the size check or the spawn. |
| HookHandler.UnderLockErrors | src/hook-handler.ts:99-141 | The same error facts for the part under the lock. |
| HookHandler.LockDiscipline | src/hook-handler.ts:34-141 | An invalid id has no side effects. Otherwise the record is read first and written exactly once. The lock is requested iff a topic is due. The handler releases it iff on the waiting or failure path. A worker is launched iff on the dispatch path, with those arguments. With the awaited lock test (see ## Findings). |
| HookHandler.PathTraceLocks | src/hook-handler.ts:58-141 | Which lock and launch calls each path makes after the read. |
| HookHandler.PathTraceWritesOnce | src/hook-handler.ts:58-141 | After the read, every path writes exactly the record it computed, once. |
| HookHandler.HandleStopHook | src/hook-handler.ts:28-142 | The new records and the appended side effects are exactly those `StopHook` and `Trace` give for the record stored before the call. With the awaited lock test (see ## Findings). |
| HookHandler.CountAndDispatch | src/hook-handler.ts:53-141 | From the loaded record on: the write and the side effects `AfterRead` and `PathTrace` give. With the awaited lock test (see ## Findings). |
| HookHandler.TryGenerate | src/hook-handler.ts:79-141 | The `try`/`catch` part: the write and the side effects `UnderLock` and `TryTrace` give. |
| HookHandler.LookUpContext | src/hook-handler.ts:82-97 | The imperative lookup, calling `ParseTranscript`, returns `ResolveContext`. |
| HookHandler.RefusedLockStillDispatches | src/hook-handler.ts:69 | With the lock refused, the code as written launches a worker, where the awaited test takes the busy path. |
| HookHandler.RefusedLockNeverDispatches | src/hook-handler.ts:69-75 | With the awaited test, a refused lock never launches a worker and keeps the stored error. |
| HookHandler.HandledRecordDisplay | src/hook-handler.ts:99-141 | With no topic yet, the status line after the handler never shows the sentinel. It shows the countdown after waiting or dispatch, and the exception's message after a failure. |
| BackgroundGenerator.WorkerTempDir | src/background-generator.ts:28 | The fourth argument, or the empty string when absent. |
| BackgroundGenerator.PreviousTopic | src/background-generator.ts:39-50 | The previous topic passed on is the stored record's topic, or absent when there is no record. |
| BackgroundGenerator.WorkerWrite | src/background-generator.ts:54-67 | A write happens iff the generator returns a non-empty topic. It writes `{stored count or 0, topic, "", now}`. |
| BackgroundGenerator.RunBackgroundGenerator | src/background-generator.ts:21-81 | Fewer than three arguments: exit 1, no records changed, no side effects. Otherwise exit 0, with the write `WorkerWrite` gives for this session only, and the side effects `WorkerTrace` lists. |
| BackgroundGenerator.NoTopicKeepsRecord | src/background-generator.ts:54-75 | A thrown or empty topic writes nothing. |
| BackgroundGenerator.ReleaseComesLast | src/background-generator.ts:76-80 | The forced release is always the last side effect and happens only once. |
| BackgroundGenerator.StoredTopicShownNow | src/background-generator.ts:54-63 | A freshly stored topic is shown as `topic (now)`. |
| BackgroundGenerator.DispatchThenGenerate | src/background-generator.ts:21-81 | After a dispatch, the worker accepts the arguments. It releases the same lock the handler requested. A non-empty generated topic keeps the handler's count and is what the status line shows. |
| Transcript.StripLeadingSlash | src/transcript.ts:10 | One leading `/` removed, if present. |
| Transcript.ProjectDirName | src/transcript.ts:10-11 | The name starts with `-` and contains no `/`. For a cwd starting with `/`, it is the cwd with every `/` turned into `-`, of the same length. |
| Transcript.ProjectDirNameCollides | src/transcript.ts:10-11 | `/a/b` and `/a-b` share a project directory. |
| Transcript.TranscriptPathFor | src/transcript.ts:7-13 | The path is the projects directory, the mangled name, `/`, then `sessionId.jsonl`. |
| Transcript.TranscriptFileIsDirectChild | src/transcript.ts:13 | For a slash-free id, the last path component is `sessionId.jsonl`. |
| Transcript.FindTranscriptPath | src/transcript.ts:6-20 | The path is returned iff a file exists there, and nothing otherwise. |
| Transcript.BlockTexts | src/transcript.ts:53-55 | At most one text per block. The exact texts in order are `BlockTextsStep`'s. |
| Transcript.BlockTextsStep | src/transcript.ts:53-55 | Appending a block appends its text (or `''` when absent) to the texts iff it is a text block. With the empty list this fixes the texts of every block list. |
| Transcript.BlockTextsFilter | src/transcript.ts:54 | No text blocks give no texts. All-text blocks give one text each. |
| Transcript.BlockTextsAppend | src/transcript.ts:53-55 | The texts of a concatenation are the texts of the parts, in order. |
| Transcript.ExtractText | src/transcript.ts:47-60 | String content unchanged. Other values give `''`. A single text block gives its text. |
| Transcript.ExtractTextStep | src/transcript.ts:52-56 | Appending a text block to a block list appends a space and its text (or `''` when absent) to the extracted text, or gives that text alone when no text block precedes it. With `NonTextBlockIgnored` this is the space-join of any number of blocks. |
| Transcript.NonTextBlockSkipped | src/transcript.ts:54 | Inserting a non-text block does not change the texts. |
| Transcript.NonTextBlockIgnored | src/transcript.ts:53-56 | Inserting a non-text block does not change the extracted text. |
| Transcript.TextBlocksJoined | src/transcript.ts:55-56 | Two text blocks give their texts joined by a space. A missing text counts as `''`. |
| Transcript.Entry | src/transcript.ts:87-97 | User and assistant messages with non-empty text give `User: ` or `Claude: ` and the first 200 characters of the text. Other messages give nothing. |
| Transcript.LineEntries | src/transcript.ts:84-101 | A line gives one entry iff it parses and has an entry. Unparsable lines give nothing. |
| Transcript.Entries | src/transcript.ts:83-102 | At most one entry per line. Every entry is speaker-prefixed and bounded. |
| Transcript.EntriesAppend | src/transcript.ts:83-102 | Entries keep the order of the lines. |
| Transcript.EntriesStep | src/transcript.ts:83-102 | One more line adds that line's entries at the end. |
| Transcript.RecentLines | src/transcript.ts:79 | The last `contextLines` lines, or all of them when fewer or when the count is 0. |
| Transcript.OlderLinesInvisible | src/transcript.ts:78-79 | Lines older than the window do not affect the window. |
| Transcript.TranscriptContext | src/transcript.ts:104-105 | Nothing iff there are no entries. Otherwise the prefix of the newline-joined entries of length `min(joined.length, 5000)`. |
| Transcript.ParseTranscript | src/transcript.ts:62-110 | A missing or empty file gives nothing. Otherwise the loop computes `TranscriptContext` of the content: the first `min(joined.length, 5000)` characters of the entries joined by newlines. |
| Transcript.ParseLine | src/transcript.ts:84-101 | The loop body computes `LineEntries`. |
| TopicGenerator.BuildPrompt | src/topic-generator.ts:4-24 | The prompt is the head, then the context verbatim, then `\n\nTopic:` last. |
| TopicGenerator.PromptNamesSource | src/topic-generator.ts:5-8 | The prompt starts with `Based on these ` and the source's label. |
| TopicGenerator.BuildPromptInjective | src/topic-generator.ts:20-23 | Different contexts give different prompts. |
| TopicGenerator.ContextFollowsHeading | src/topic-generator.ts:20-21 | The context comes right after its heading line, `Session observations:` or `Recent conversation:`. |
| TopicGenerator.PromptLabelVectors | src/topic-generator.ts:5-6 | `claude-mem` gives `session observations` and `Session observations`. `transcript` gives `Claude Code session` and `Recent conversation`. |
| TopicGenerator.FirstLineTopic | src/topic-generator.ts:66-68 | Nothing iff the output is all white space. Otherwise the non-empty, newline-free prefix of the trimmed output that ends at its first newline or at its end: its first line. |
| TopicGenerator.FirstLineIgnoresLaterLines | src/topic-generator.ts:66 | Text after the first newline never reaches the topic. |
| TopicGenerator.FirstPieceIsLine | src/topic-generator.ts:66 | The first piece of a split at `\n` is the text up to the first newline. |
| TopicGenerator.GenerateTopic | src/topic-generator.ts:26-72 | A failed run gives nothing. Otherwise the topic is the first line of the trimmed output of the model run on the built prompt: a newline-free prefix that reaches the first newline or the end. Nothing iff the output is all white space. |
| DistTopicGenerator.ContinuityInstructions | dist/topic-generator.js:33-39 | A truthy previous topic gives `Previous topic: "<prev>"` followed by the guidance. Otherwise the first-generation note. |
| DistTopicGenerator.BuildPromptWithHistory | dist/topic-generator.js:29-56 | Where the parts sit: the head, the continuity text right after it, the context verbatim before `\n\nTopic:`, and the closing. |
| DistTopicGenerator.HistoryPromptOpening | dist/topic-generator.js:30-40 | The prompt opens with the same label as the TypeScript prompt, keyed on `claude-mem`. |
| DistTopicGenerator.ContextRecoverable | dist/topic-generator.js:52-55 | Different contexts give different prompts. |
| DistTopicGenerator.PreviousTopicRecoverable | dist/topic-generator.js:33-34 | Different truthy previous topics give different prompts. |
| DistTopicGenerator.PreviousTopicShown | dist/topic-generator.js:33-39 | A truthy previous topic appears quoted right after the format text. Otherwise the first-generation note appears there. |
| DistTopicGenerator.EmptyPreviousTopicIsFirstGeneration | dist/topic-generator.js:33 | An empty previous topic is treated as missing. |
| DistTopicGenerator.Escape | dist/topic-generator.js:68 | Never shorter. A quote-free prompt is unchanged. |
| DistTopicGenerator.EscapedLength | dist/topic-generator.js:68 | The escaped length is the original length plus three per single quote. |
| DistTopicGenerator.ReadQuoteEscape | dist/topic-generator.js:68 | Inside quotes, `'\''` reads as one literal quote, and the quotes reopen. |
| DistTopicGenerator.ReadEscaped | dist/topic-generator.js:68 | Inside quotes, the escaped text and a closing quote read back as the original text. |
| DistTopicGenerator.ShellWordRoundTrip | dist/topic-generator.js:68-89 | `'` + escape(p) + `'` is one shell word whose value is `p`. |
| DistTopicGenerator.PipelineTail | dist/topic-generator.js:89 | The rest of the command starts with a blank, so it ends the word. |
| DistTopicGenerator.CommandPassesPromptVerbatim | dist/topic-generator.js:89 | The command starts with `printf '%s' `, and its next shell word is exactly the prompt, followed by the unchanged pipeline. |
| DistTopicGenerator.TopicFromOutput | dist/topic-generator.js:99-100 | Nothing iff the output is all white space. Otherwise the sanitised trimmed output. |
| DistTopicGenerator.GenerateTopic | dist/topic-generator.js:57-109 | An exception gives nothing. Otherwise the output of the command built from the prompt gives the topic as `TopicFromOutput`. |
| DistTopicGenerator.TopicComesFromWholePrompt | dist/topic-generator.js:65-100 | Whenever a topic comes back, the command handed `printf` the whole prompt, context included, as one argument. |
| Strings.Split | src/transcript.ts:78 | At least one piece, and no piece contains the separator. The first piece is a prefix that ends at the first separator or at the end, empty iff the text is empty or starts with the separator. |
| Strings.SplitJoinRoundTrip | src/transcript.ts:78 | Joining the pieces of a split with the separator gives back the text. |
| Strings.Take | src/transcript.ts:90 | `slice(0, n)`: the first `n` characters, or all of the text when it is shorter. |
| Strings.ReplaceChar | src/transcript.ts:10 | A character-for-character replacement of the same length. |
| Strings.Trim | src/topic-generator.ts:66 | A slice `s[a..b]` with only white space before `a` and after `b`. Empty iff the text is all white space. Otherwise it starts and ends with a non-white-space character. |
| Strings.JoinSnoc | src/transcript.ts:56 | Joining one more part appends the separator and the part, or gives the part alone when there were none. |
| Strings.DecimalRoundTrip | src/display.ts:15 | Rendered digits read back as the number. |
| Strings.NatToStringInjective | src/display.ts:42 | Different numbers render differently. |

## Left out

- src/lock.ts: proper-lockfile's locking (staleness, retries, lock files) is not modelled. Whether the lock is granted is an input. Lock requests and releases are logged calls.
- src/hook-handler.ts:104 and :137 call `releaseLock` with the session id, but src/lock.ts expects a release function. The call fails inside and the error is swallowed. The model logs the call and does not claim the lock is freed.
- src/background-generator.ts:46-50 passes the previous topic where src/topic-generator.ts expects `timeoutSec`. The worker's generator is a parameter, so this mismatch is not modelled.
- src/state.ts (JSON files, corrupt-file handling) is not part of this model. The records are a map, and `readState`/`writeState` never throw.
- src/claude-mem.ts (SQLite queries) is not part of this model. Its context is an input string.
- Shell-outs are not modelled: zx, `execSync`, the `timeout`/`gtimeout` probe and the `claude` CLI. Running the command is a parameter that yields output or nothing.
- `remove-markdown` is not modelled; `sanitizeMarkdown` is a parameter.
- Logging to temporary files is not modelled; it has no effect on results.
- `waitForTranscriptContent` (src/transcript.ts:22-45) is a polling loop. A file that stays empty for the whole wait is modelled as an empty content, which gives no context. The size check's exception is the `statFailure` input. A read failure inside `parseTranscript`'s `try` is not modelled.
- The detached `spawn`/`unref` and races between handler and worker are not modelled. Each call sees one state of the store and one `now`.
- Display.FormatAge: works in integer milliseconds. The source's floating-point division by 1000 and 3600 is not modelled.
- Transcript.Entry: `slice(0, 200)` counts UTF-16 code units. The model counts characters.
- Transcript.RecentLines: takes a natural number. A negative `contextLines` is not modelled.
- `path.join` normalisation is not modelled. The transcript path is the plain concatenation, which equals what `join` gives for a normalised absolute home directory without a trailing slash. A home directory with `//`, `.` or `..` segments, which `path.join` collapses, is not modelled.
- Schedule.NextGenerationAt: requires `regenInterval > 0`. With 0 the source divides by zero (a `NaN` count). `ShouldGenerate` models 0 explicitly.
- HookHandler.HandleStopHook: is proved for the awaited lock test of src/hook-handler.ts:69 (see ## Findings), under which a refused lock takes the busy path. As written that path cannot happen. `StopHookAsWritten` models the code as written, and `RefusedLockStillDispatches` shows where it differs. The same holds for `StopHookCounts`, `LockDiscipline` and `CountAndDispatch`.
- TopicGenerator.BuildPrompt: takes the instructions text as a parameter, and its lemmas hold for any wording. `TopicGenerator.Instructions` is the source's wording. The same holds for the compiled prompt's `PromptText` and `SourceText`.
- CLI entry points (src/cli.ts, src/cli-display.ts, src/cli-force-topic.ts) are not modelled. Nor are tests whose expectations the code does not meet: glyphs in the display, `stop_hook_active`, and the exit code on malformed JSON.

## Findings

| source | as written | input that shows it | evidently intended | confidence | as-written member | corrected member |
|---|---|---|---|---|---|---|
| src/hook-handler.ts:69 | `if (!acquireLock(session_id, tempDir))` negates the Promise that the async `acquireLock` returns. A Promise is always truthy, so the busy branch never runs, even when the lock is refused. | Id `agent-abc1234`, no stored record, memory context `observations`, lock refused. The code as written launches a worker. | `if (!(await acquireLock(...)))`: with the lock refused, only the count is written (the busy path). | not executed | HookHandler.RefusedLockStillDispatches | HookHandler.RefusedLockNeverDispatches |
