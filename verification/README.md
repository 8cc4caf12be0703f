# Pars, verified

A Dafny model of the stateful cores of the Pars agent and proofs about every run of them. Model replies,
tool outcomes, clocks, disk contents, process results, goroutine schedules and system events are arbitrary
inputs; what the code itself decides is modelled branch by branch.

* **Conversation pipeline.** `Messages`, `ContextWindow` (trimming and compaction), `Conversation` (what a run
  does to a session's history and to a ghost log of everything recorded, as a function of what comes in, events
  and compactions of other goroutines included), `Talk` (the same run without any memory, read off its input),
  `Session` (the agent's methods, proved to do what those functions say), `Gemini` (what the provider sends) and
  `RequestContents` (that it says what the messages say). Each history handed to a provider is the system prompt,
  at most one notice and a suffix of the log, and calls and responses stay paired through trimming, compaction,
  half-cut, merging and sanitizing.
* **Tool batch.** `ToolBatch`: workers, semaphore, wait group and result list as interleaved atomic steps.
* **Scheduler.** `Scheduler` (the task table, pulses, runners and sweeps as a state machine), `LaunchBounds`,
  `TaskLifetime`, `TaskEffects` (what each step brings about), and `Heartbeat`, the service as an object whose
  methods take the machine's steps.
* **Cancel ownership.** `CancelOwnership`: overlapping runs and control calls on one session.
* **Windows and buffers.** `RateLimiter`, `AlertCooldown`, `ThreatTracker`, `TailBuffers`.
* **Texts.** `Text` (the Go string functions, on bytes), `SseStream` (event framing and reading), `LineEdits`
  (insert and edit), `Braces` (the JSON scanner and filter), `ToolEditor` (edits with rollback) and
  `EditEffects` (what they put on disk and into the registry).

Code that works step by step is a method or a class proved against a specification function or a state
machine; the lemmas then say what that specification guarantees. Strings are sequences of bytes.

## What the proofs found

* A compaction panics (it slices an empty list from -1) exactly when the history is one over-long system
  prompt (`ContextWindow.CompactionIsSafe`); `Run` never gets there (`Conversations.RunIsOk`).
* Gemini keeps the last system message as the instruction, so a compaction notice displaces the system prompt
  and the half-cut of a huge history loses it (`Gemini.InstructionOfHistory`). One event and one input are
  enough for a run to get to the first, one huge input to the second (`Conversations.PromptIsDisplaced`,
  `Conversations.PromptIsLost`).
* A recurring task keeps its pace exactly when the driver returns `last_run` in the layout that the pulse parses
  and the interval is at most 153,722,867 minutes; otherwise every pulse finds it due, or the interval wraps
  around an int64 (`LaunchBounds.KeepsPaceExactly`, `LaunchBounds.UnparsedLaunchesAlways`); at 153,722,868 minutes
  every pulse launches (`LaunchBounds.OneMinuteTooLong`). The pulse parses `2006-01-02 15:04:05`; the deployment's
  driver is `modernc.org/sqlite` (`go.mod:18`, opened in `internal/db_manager/manager.go:100`) on a column declared
  DATETIME (`internal/core/heartbeat/heartbeat.go:89`). That driver yields such a column as a time value, which
  `database/sql` scans into a string in RFC 3339 layout, so the unparsed side applies. The driver is not part of
  this model.
* A comment in the stream reader says that newlines inside a message are kept. They are not: the writer does
  not prefix the later lines. A list of messages arrives as sent exactly when every message is non-empty, free of
  newlines and of white space around it, and short enough for the buffer (`SseStream.RoundTripExactly`).
* Replacing a block of lines and putting it back fails, on a file without carriage returns, exactly for empty
  code and for a block of one empty line among others, because empty code means deletion. With carriage returns
  both round trips work exactly when no line loses one (`LineEdits.ReplaceThenRestore`,
  `LineEdits.InsertThenDelete`).
* A run whose last reply is empty is answered with its own input if it was a chat, and with a fixed text only if it
  was a task (`Talks.AnswerIsLast`).
* The filter that hides JSON keeps just the text outside the scanner's blocks exactly when the braces match
  (`Braces.PartitionExactly`).
* The tool editor's rollback restores the script but not the tool registry. A failing edit leaves the registry
  alone, whatever happens, exactly when its list of actions has no test run that can be reached before an action
  that can be reached and can fail (`ToolEditors.RegistryKeptWhen`).

## Model

| member | source | states |
|---|---|---|
| Sessions.Session.Run | internal/agent/execution.go:100-372 | for any input, replies, tool schedules, events and compactions: log, outcome and the log at each question are those of the simple form `Talks.TalkOf`; it ends as its first last round says, and an answer is the last assistant message's text; each history handed to a `Chat` is headed by this run's prompt and as `ChatOk` says, on a growing log; the session is ready for the next run and the run has not panicked |
| Conversations.RunIsOk | internal/agent/execution.go:100-372 | at every `Chat` of a run: prompt, at most one notice, non-empty suffix of the log at that time, at most 41 messages plus the events that log ends in, well-paired Gemini contents; never a panic |
| Conversations.SessionIsOk | internal/agent/execution.go:100-372 | any number of runs from a new session on: the memory stays sound, every `Chat` of every run is as above, no run panics |
| Conversations.ChatsGrow | internal/agent/execution.go:190-368 | the log at each `Chat` extends the log at every earlier one, and the final log extends them all |
| Conversations.ExtendsIsPrefix | internal/agent/execution.go:207-210 | a log that extends another begins with all its messages |
| Talks.RunRefinesTalk | internal/agent/execution.go:100-372 | the whole log of a run, events included, the log whenever the provider is asked and the outcome are those of a simple form that has no history, limit or compaction and reads calls, rounds and ends off the replies |
| Talks.RunEnds | internal/agent/execution.go:190-298 | a run ends in its first round that is cancelled, fails, or has no effective calls and is a chat or not the first, as that round says; it reaches the step limit exactly if there is none |
| Talks.AnswerIsLast | internal/agent/execution.go:443-470 | an answer is the text of the last assistant message, which calls nothing; if that is empty, it is the input for a run that was a chat to its end and the fixed text for a task |
| Talks.InterferenceIsSilent | internal/agent/execution.go:100-372 | two runs that differ only in events, compactions, limits, histories and prompts say the same at the same times and end alike |
| Conversations.RecordRefines | internal/agent/execution.go:400-421 | append-then-trim keeps a headed history headed by the same prompt, and one not yet headed a suffix of the log, within 40 messages |
| Conversations.PairedWithTools | internal/agent/execution.go:362-367 | tool results behind the assistant message that asked for them keep the log paired, whatever was said in between |
| Conversations.DisturbedIsSound | internal/agent/session.go:247-271 | any events and compactions of other goroutines keep the memory sound, the prompt pinned and the last assistant message |
| Conversations.TidiedIsSound | internal/agent/session.go:74-187 | a compaction keeps the memory sound, and with the prompt pinned it cannot panic |
| Conversations.ReactionIsReady | internal/agent/execution.go:263-367 | whatever follows a reply keeps the memory sound and the prompt pinned |
| Conversations.PromptIsDisplaced | internal/brain/providers/gemini.go:145-150 | a run that hands Gemini a history whose notice displaces the prompt |
| Conversations.PromptIsLost | internal/brain/providers/gemini.go:71-78 | for every input over twice the content limit, a first run whose prompt the half-cut loses |
| Sessions.Session.Record | internal/agent/execution.go:146-153 | appends to history and log, then trims the history |
| Sessions.Session.TrimHistory | internal/agent/execution.go:400-421 | in place, the history becomes its trimmed form of at most 40 messages, the system head kept |
| Sessions.Session.ManageContextWindow | internal/agent/session.go:74-187 | the backward scan computes the compaction of `ContextWindow.Compacted`, and panics just where that has none |
| Sessions.Session.RefreshSystemPrompt | internal/agent/helpers.go:127-179 | pins the prompt in front of the history or over the old one |
| Sessions.Session.HandleSystemEvent | internal/agent/session.go:247-260 | records an event in history and log |
| Sessions.Session.Interfere | internal/agent/session.go:247-271 | events and recovered compactions in any order, as `Disturbed` |
| Sessions.Session.NextRound | internal/agent/execution.go:190-368 | one round: the new history and log, the histories it showed, and whether it ends the run, with which outcome, or panics |
| Sessions.Session.Show | internal/agent/execution.go:200-224 | after the compaction, the current history, once more for the retry without native tools |
| Sessions.Session.React | internal/agent/execution.go:234-299 | a reply is recorded in history and log with its effective calls; then tools, the order to use them, or the answer |
| Sessions.Session.Act | internal/agent/execution.go:301-367 | the outputs the tools handed in, if any, are recorded in history and log behind what came in meanwhile |
| ContextWindow.KeepFromIsLongest | internal/agent/session.go:129-159 | the kept suffix is the longest that fits beside the prompt; only if none does is the last message kept |
| ContextWindow.KeepFromByScan | internal/agent/session.go:135-154 | stopping the backward scan at the first message too many finds that longest suffix |
| ContextWindow.CompactionIsOptimal | internal/agent/session.go:156-178 | over the limit, the result is prompt, a notice with the exact count of dropped messages, and the longest suffix that fits |
| ContextWindow.NoticeTells | internal/agent/session.go:163-172 | the notice tells how many messages went: two notices for different numbers differ |
| ContextWindow.CompactionIsBounded | internal/agent/session.go:101-178 | the history never grows in messages; its characters stay within max(limit, prompt + last message) plus the notice |
| ContextWindow.CompactionIsSafe | internal/agent/session.go:156-161 | it has no result exactly for a lone system prompt over the limit |
| ContextWindow.CompactionRefines | internal/agent/session.go:161-178 | compaction keeps the refinement of the log, notice at index 1 and a non-empty suffix |
| ContextWindow.TrimRefines | internal/agent/execution.go:400-421 | so does trimming, which may drop an older notice |
| ContextWindow.TrimKeepsLatest | internal/agent/execution.go:400-421 | past forty messages exactly forty stay: the system head and the last 39, or the last 40 |
| ContextWindow.RefreshRefines | internal/agent/helpers.go:167-176 | pinning a prompt makes a suffix of the log a headed history and keeps one headed |
| ContextWindow.HeadedIsPaired | internal/agent/execution.go:207-210 | what a provider is shown is paired because the log is: cutting the front off never makes a tool message answer the wrong assistant message |
| Messages.LastAssistantOfSuffix | internal/agent/execution.go:400-421 | a cut at the front keeps the last assistant message or leaves none |
| Gemini.BuildRequest | internal/brain/providers/gemini.go:71-318 | the provider's loops produce the instruction and contents that the lemmas here and in `RequestContents` speak about |
| Gemini.MergeTurns | internal/brain/providers/gemini.go:140-276 | the merge loop extends the last turn in place or starts a new one, as `Gemini.Merged` |
| Gemini.Sanitize | internal/brain/providers/gemini.go:279-317 | the sanitizing loop, looking at the last turn it kept, as `Gemini.Sanitized` |
| Gemini.Inspect | internal/brain/providers/gemini.go:283-292 | finds out whether a turn has a call and whether it has a response |
| Gemini.MergeAlternates | internal/brain/providers/gemini.go:271-275 | after merging, roles alternate for every history |
| Gemini.MergeIsLinked | internal/brain/providers/gemini.go:140-276 | after merging a paired history, every response behind the first turn names a call of the turn before it |
| Gemini.SanitizeIsFilter | internal/brain/providers/gemini.go:294-316 | on merged turns the loop's memory does not matter: it drops just the leading responses and the calls nobody answers |
| Gemini.ContentsAreWellPaired | internal/brain/providers/gemini.go:71-318 | end to end, for every paired history and any images found: each call turn is followed by a response turn and each response turn preceded by a turn with a call |
| Gemini.InstructionOfHistory | internal/brain/providers/gemini.go:75-78 | which system message ends up as the instruction: the prompt, the notice in its place, or none after a half-cut |
| RequestContents.TurnsSayWhatMessagesSay | internal/brain/providers/gemini.go:140-276 | for every history: read in order, the merged turns' texts, calls with arguments, tool outputs and images are exactly those of the messages, on the right side, at most five images a message and its text before its calls |
| RequestContents.HalfIsNewer | internal/brain/providers/gemini.go:71-78 | a history of over 1,024,000 bytes is cut to its newer half, any other stays whole |
| RequestContents.ContentsAreWholeTurns | internal/brain/providers/gemini.go:279-318 | of the merged turns of a paired history the request carries exactly those that are neither a first turn with a response nor a call turn without a response behind it, each whole and in order |
| RequestContents.NothingIsLost | internal/brain/providers/gemini.go:71-318 | the request says all that the messages say whenever every assistant message with calls is answered before the next one and before the end, and no tool answers before the first |
| ToolBatch.AtMostFourExecute | internal/agent/execution.go:303-325 | in every interleaving at most four tools execute, the semaphore counts the workers between acquire and release, the wait group the unfinished ones |
| ToolBatch.ResultsAreGenuine | internal/agent/execution.go:337-345 | at any time the results come from distinct named calls and carry their name and id |
| ToolBatch.ResultsAreReports | internal/agent/execution.go:337-345 | for every schedule, each result is what a tool handed in at one enabled step: that call's id and name, that output, those images; one result for each such step, in the order of the steps |
| ToolBatch.OutputsAreReports | internal/agent/execution.go:338-360 | so the messages of a batch are exactly the tools' outputs in the order they came in |
| ToolBatch.FinishedIsPermutation | internal/agent/execution.go:307-360 | a batch that finishes uncancelled has exactly one result for each named call, in some order |
| ToolBatch.BatchTerminates | internal/agent/execution.go:307-360 | no schedule takes more than six steps a call plus one, and an unfinished batch can always take a step |
| ToolBatch.OutputsAnswer | internal/agent/execution.go:338-344 | every tool message answers the assistant message whose calls the batch ran |
| ToolBatch.RunBatch | internal/agent/execution.go:301-360 | running a schedule step by step yields the outputs the lemmas speak about |
| Scheduler.NoTaskRunsTwiceAtOnce | internal/core/heartbeat/heartbeat.go:469-528 | in every reachable state the in-flight runners have distinct ids and are exactly the running set |
| Scheduler.OneOffLaunchBound | internal/core/heartbeat/heartbeat.go:447-528 | over every run a one-off task is launched at most once plus once per outside write of a non-terminal status |
| LaunchBounds.KeepsPaceExactly | internal/core/heartbeat/heartbeat.go:470-494 | the k-th launch comes no earlier than k intervals after creation in every run, if and only if the layout parses and the interval in nanoseconds fits an int64 |
| LaunchBounds.LaunchCountBound | internal/core/heartbeat/heartbeat.go:487-503 | by time T such a task has been launched at most (T - created) / interval times |
| LaunchBounds.LaunchesAreApart | internal/core/heartbeat/heartbeat.go:487-503 | for every interval but 0 and a parsed layout, two launches, and creation and first launch, are at least the int64-wrapped interval in nanoseconds apart |
| LaunchBounds.PulseLaunchesWhenApart | internal/core/heartbeat/heartbeat.go:470-503 | a pulse launches a selected recurring row that is not running exactly when that much time has passed |
| LaunchBounds.OneMinuteTooLong | internal/core/heartbeat/heartbeat.go:490-493 | at 153,722,868 minutes every pulse launches it |
| LaunchBounds.UnparsedLaunchesAlways | internal/core/heartbeat/heartbeat.go:470-503 | if the layout does not parse, every pulse launches each selected recurring row in range that is not running, whenever it last ran |
| TaskLifetime.TtlBounds | internal/core/heartbeat/heartbeat.go:220-234 | in every reachable table agent rows have a ttl of 1 to 1440 minutes and user rows 0 |
| TaskLifetime.RowsLeaveDuly | internal/core/heartbeat/heartbeat.go:157-209 | over every run, a row that is gone was removed by a delete of its id if it was no agent's, else by a sweep after created + ttl |
| TaskLifetime.SweepRemovesPicks | internal/core/heartbeat/heartbeat.go:162-204 | a whole sweep removes just the rows its query selected |
| TaskLifetime.SweepsClear | internal/core/heartbeat/heartbeat.go:162-204 | with a frozen clock each sweep clears a hundred expired rows or the rest and touches no other row |
| TaskLifetime.SweepsNeeded | internal/core/heartbeat/heartbeat.go:172-204 | n expired rows are gone after ceil(n / 100) sweeps and not before |
| TaskEffects.CreatedAsAsked | internal/core/heartbeat/heartbeat.go:220-251 | a created row is new, pending and as asked; an agent's time to live is 30 minutes if none is given and 1440 at most, a user's task has none |
| TaskEffects.NamelessIsRefused | internal/core/heartbeat/heartbeat.go:216-218 | nothing is created without a name or a prompt |
| TaskEffects.StatusIsWritten | internal/skills/network/db_tool.go:707-747 | a status write changes the status of its row, and the completion time if it completes it, and nothing else |
| TaskEffects.DeletedIsGone | internal/skills/network/db_tool.go:906-941 | a deleted id is gone unless it is an agent's, and every other row stays |
| TaskEffects.RunnerCompletes | internal/core/heartbeat/heartbeat.go:509-522 | a one-off runner's closing write completes its row, stamped with the time; a recurring one's changes nothing |
| TaskEffects.PulseLaunchesOneOffs | internal/core/heartbeat/heartbeat.go:470-503 | in either layout a pulse launches every selected one-off task that is not running exactly once and leaves it running, launched now |
| TaskEffects.PulseLaunchesRecurring | internal/core/heartbeat/heartbeat.go:470-503 | so does it every selected recurring task that is not running and whose wrapped interval has passed |
| TaskEffects.PulseLaunchesNoOthers | internal/core/heartbeat/heartbeat.go:470-503 | it launches nothing that is running or not selected |
| TaskEffects.OneOffLaunchedOnce | internal/core/heartbeat/heartbeat.go:447-528 | over every run a one-off task that nobody writes to or deletes from outside is launched exactly once as soon as one pulse has passed since its creation, and not before |
| TaskEffects.OverdueRowsLeave | internal/core/heartbeat/heartbeat.go:157-209 | an agent's row whose time to live has run out since its completion, or since its creation while it runs, is gone after as many sweeps as the expired rows take |
| Heartbeat.HeartbeatService.CreateTask | internal/core/heartbeat/heartbeat.go:211-261 | normalises and inserts as the scheduler's create step; refuses an empty name or prompt |
| Heartbeat.HeartbeatService.UpdateTaskStatus | internal/skills/network/db_tool.go:707-747 | an outside status write is the scheduler's update step |
| Heartbeat.HeartbeatService.DeleteTask | internal/skills/network/db_tool.go:906-941 | deletes exactly existing rows that are no agent's |
| Heartbeat.HeartbeatService.Pulse | internal/core/heartbeat/heartbeat.go:447-529 | one uninterrupted pulse over the selected rows is the scheduler's pulse step, whose launches `TaskEffects` and `LaunchBounds` give |
| Heartbeat.HeartbeatService.LaunchTask | internal/core/heartbeat/heartbeat.go:470-528 | launches a row exactly when it is not running and due |
| Heartbeat.HeartbeatService.RunnerWrites | internal/core/heartbeat/heartbeat.go:509-522 | a runner's closing status write, for one-off tasks alone |
| Heartbeat.HeartbeatService.RunnerLeaves | internal/core/heartbeat/heartbeat.go:524-526 | a runner's removal from the running set |
| Heartbeat.HeartbeatService.CleanupStaleTasks | internal/core/heartbeat/heartbeat.go:157-209 | the cleanup loop equals a select step followed by its delete steps |
| CancelOwnership.EveryLiveRunIsOwned | internal/agent/execution.go:107-142 | in every interleaving a live run's cancel function is in its session's slot or with exactly one control call, never both |
| CancelOwnership.OneLiveRunPerSession | internal/agent/execution.go:122-130 | with no control call pending on them, two live runs of a session are the same run |
| CancelOwnership.EmptySlotMeansStopped | internal/agent/internal_tools.go:108-120 | a run of a session whose slot is empty is live only if a control call is about to fire its cancel |
| CancelOwnership.TakeThenFireStops | internal/agent/internal_tools.go:101-117 | a control call takes the run in a slot, any steps pass, it fires, any steps pass: the fire stops that run and no other, and for good |
| CancelOwnership.StartTakesOver | internal/agent/execution.go:107-130 | a run started with an id takes over that session's slot, known or new, and stops the run in it for good and no other; one started without an id gets a new session |
| RateLimiters.RateLimiter.Allow | internal/ipc/local_api.go:957-978 | the in-place limiter admits a call exactly when the full log has fewer than max admissions in (now - window, now] |
| RateLimiters.RateLimiter.Compact | internal/ipc/local_api.go:957-978 | the loop moves the times in the window to the front, in order, in place |
| RateLimiters.StoredIsEnough | internal/ipc/local_api.go:957-978 | the compacted slice is the full admission log filtered to the window, and as good as it for every later window |
| RateLimiters.AdmissionsGrow | internal/ipc/local_api.go:972-977 | the log of admissions gets the time of a call that has room, and nothing else |
| RateLimiters.HasRoomExactly | internal/ipc/local_api.go:961-975 | a call has room exactly if the max-th admission from the end, if there are so many, lies a whole window back |
| RateLimiters.AdmissionsAreSpaced | internal/ipc/local_api.go:957-978 | the (i + max)-th admission is at least one window after the i-th |
| RateLimiters.RefusedOnlyWhenFull | internal/ipc/local_api.go:957-978 | the window never holds more than max, and a call is refused exactly when it holds max |
| AlertCooldown.EvictionIsInvisible | internal/skills/kangal/notification.go:237-267 | for any alerts and cleanups under a monotone clock, every decision is that of a tracker that never forgets |
| AlertCooldown.AcceptedExactly | internal/skills/kangal/notification.go:237-250 | under a monotone clock an alert is accepted exactly if no earlier accepted alert of its key lies within its cooldown of one, five or ten minutes |
| AlertCooldown.CleanupForgetsOld | internal/skills/kangal/notification.go:252-267 | a cleanup forgets exactly the keys last let through over an hour ago |
| AlertCooldown.AcceptedAlertsAreSpaced | internal/skills/kangal/notification.go:237-250 | two accepted alerts of one key are at least the later one's cooldown apart |
| AlertCooldown.NotificationEngine.Handle | internal/skills/kangal/notification.go:237-267 | over any sequence of alerts and cleanups the engine decides, from the start and under a monotone clock, as a tracker that never forgets |
| AlertCooldown.NotificationEngine.CanSendAlert | internal/skills/kangal/notification.go:237-250 | decides and stamps as the tracker the lemmas speak about |
| AlertCooldown.NotificationEngine.RateLimitCleanup | internal/skills/kangal/notification.go:252-267 | evicts, in any order, exactly the entries over an hour old |
| ThreatTrackers.ThreatTracker.AddAttempt | internal/skills/security/auth_monitor.go:31-53 | alarms exactly when limit attempts of this source, unused by earlier alarms, lie in the window; other sources are untouched |
| ThreatTrackers.StoredIsEnough | internal/skills/security/auth_monitor.go:36-52 | forgetting what leaves the window changes no later decision |
| ThreatTrackers.StoredBelowLimit | internal/skills/security/auth_monitor.go:44-50 | between calls fewer than limit attempts are stored |
| ThreatTrackers.AlarmUsesExactlyLimit | internal/skills/security/auth_monitor.go:47-50 | an alarm fires on exactly limit unused attempts, never more |
| ThreatTrackers.AlarmsExactly | internal/skills/security/auth_monitor.go:36-50 | an attempt makes an alarm exactly if the limit - 1 attempts before it are there, lie in its window and made no alarm themselves |
| ThreatTrackers.AlarmsAreBacked | internal/skills/security/auth_monitor.go:31-53 | over any run of one source alarms times limit never exceed the attempts |
| ThreatTrackers.AllAlarmsAreBacked | internal/skills/security/auth_monitor.go:31-53 | nor do they for all sources together |
| ThreatTrackers.ThreatTracker.AddAll | internal/skills/security/auth_monitor.go:31-53 | over a tracker's whole life its alarms are those of the specification, and times limit no more than its attempts |
| TailBuffers.SSHRingBuffer.Write | internal/skills/network/ssh.go:49-70 | the buffer is the last max bytes written since the last clear; the answer is min(len, max) |
| TailBuffers.SSHRingBuffer.WriteAll | internal/skills/network/ssh.go:49-70 | any sequence of writes leaves the tail of their concatenation |
| TailBuffers.SSHRingBuffer.ReadAll | internal/skills/network/ssh.go:72-79 | reads that tail |
| TailBuffers.ShellRingBuffer.Write | internal/skills/system/universal_shell.go:74-87 | the same tail, and `Truncated` holds exactly when more than max bytes were written |
| TailBuffers.CutsMakeTail | internal/skills/network/ssh.go:54-68 | the three-way cut of buffer and chunk is the tail of their concatenation |
| TailBuffers.TailIsEnd | internal/skills/network/ssh.go:54-68 | the tail is the end of what was written, as long as the buffer allows |
| SseStream.Receive | cmd/pars/runner.go:566-606 | what the console receives depends on the bytes alone, however the network cuts them, even between the two newlines |
| SseStream.Scanner.Scan | cmd/pars/runner.go:569-584 | one scan yields the next block of the stream, or stops at its end or at a block over the buffer limit |
| SseStream.DecodeBlock | cmd/pars/runner.go:590-603 | collects the data lines of a block and trims them |
| SseStream.BlockSaysItsData | cmd/pars/runner.go:590-603 | a block of any lines says the texts of its data lines, one under the other and trimmed |
| SseStream.BlockIsHeard | cmd/pars/runner.go:569-606 | a block within the buffer is heard as what it says, and the stream behind it is read on |
| SseStream.LastBlockIsHeard | cmd/pars/runner.go:576-579 | a last block without its blank line is heard all the same |
| SseStream.LongBlockEnds | cmd/pars/runner.go:581-606 | a block that does not end within the buffer ends the reading, and nothing of it is heard |
| SseStream.RoundTripExactly | internal/ipc/local_api.go:1032-1040 | a list of framed messages arrives the same, in the same order, if and only if each is non-empty, newline-free, trimmed and within the buffer |
| SseStream.ReceivedFits | cmd/pars/runner.go:589-606 | for any bytes, the messages received, framed again, are no longer than the stream, or by two bytes if it does not end in a blank line |
| Text.SplitJoin | internal/skills/coding/vscode_tools.go:445-469 | splitting a join of separator-free pieces gives the pieces back |
| Text.JoinSplit | internal/skills/filesystem/write.go:283-300 | joining a split gives the text back |
| Text.TrimmedIsPiece | internal/skills/coding/dev_studio.go:133 | trimming leaves a piece of the text, with nothing but white space in front of it and none at its ends |
| LineEdits.TextFile.InsertFile | internal/skills/filesystem/write.go:272-309 | writes the inserted text for every integer line; an unreadable file is an error and untouched |
| LineEdits.TextFile.LineEdit | internal/skills/coding/vscode_tools.go:428-473 | writes the edited text for every pair of integers, or refuses and leaves the file alone |
| LineEdits.InsertedLines | internal/skills/filesystem/write.go:283-300 | the content's lines stand at the clamped position and every other line is kept |
| LineEdits.EditedLines | internal/skills/coding/vscode_tools.go:444-469 | only the lines in the clamped range are replaced; the others lose at most a carriage return |
| LineEdits.RefusedOnlyWhenEmpty | internal/skills/coding/vscode_tools.go:437-453 | an edit is refused exactly when no line of the file lies in the range |
| LineEdits.UnixLines | internal/skills/coding/vscode_tools.go:444-445 | normalising line ends drops one carriage return from every line but the last and keeps the number of lines |
| LineEdits.InsertThenDelete | internal/skills/filesystem/write.go:283-300 | inserting and deleting the inserted lines restores the file if and only if no line loses a carriage return |
| LineEdits.InsertThenDeleteRestores | internal/skills/filesystem/write.go:283-300 | so always for a file without carriage returns, whatever the content and the line |
| LineEdits.ReplaceThenRestore | internal/skills/coding/vscode_tools.go:437-469 | for any file, code and accepted range: replacing a block and putting its text back restores the file if and only if the code is not empty, the block is not one empty line among others, and no line loses a carriage return |
| LineEdits.ReplaceThenRestorePlain | internal/skills/coding/vscode_tools.go:437-469 | so, for a file without carriage returns, exactly when the code is not empty and the block is not one empty line among others |
| Braces.FindBlocks | internal/agent/helpers.go:89-110 | finds exactly the top-level groups of any text, in order and disjoint |
| Braces.ExtractAllBalancedBraces | internal/agent/helpers.go:83-125 | returns nothing exactly if there is no group, else the first longest one |
| Braces.BlocksAreDisjoint | internal/agent/helpers.go:89-110 | no two top-level groups of a text overlap |
| Braces.BlockIsBalanced | internal/agent/helpers.go:93-110 | a found block is balanced and every proper non-empty prefix of it has positive depth |
| Braces.CleanJSONFromBuffer | internal/ipc/local_api.go:1500-1530 | the filter's output, trimmed; a text without an opening brace is returned as it is |
| Braces.KeptHasNoBrace | internal/ipc/local_api.go:1510-1527 | no brace ever gets through the filter |
| Braces.PartitionExactly | internal/ipc/local_api.go:1500-1530 | from the first brace on, found blocks and kept text make up the whole text if and only if its braces match |
| ToolEditors.ToolEditor.Execute | internal/skills/coding/edit.go:131-380 | all or nothing: it finishes with every action done in turn, the script being what they leave (none if a test run removed it), or the script is the old one and the step named is the first that cannot be done; the registry keeps what test runs put there, and is untouched if the list of actions is not leaky |
| ToolEditors.ToolEditor.ReplaceStep | internal/skills/coding/edit.go:179-214 | done with the checked text on disk, or rolled back because nothing could be done |
| ToolEditors.ToolEditor.WriteStep | internal/skills/coding/edit.go:216-243 | done with the sent code, checked and wrapped, on disk, or rolled back because nothing could be done |
| ToolEditors.ToolEditor.InstallStep | internal/skills/coding/edit.go:245-270 | passes exactly when no system tool is among the packages |
| ToolEditors.ToolEditor.RunStep | internal/skills/coding/edit.go:272-373 | a failed test rolls back, also a removed script; a successful one registers the tool and leaves the script as the command left it, changed or removed |
| ToolEditors.StoredTextsWereChecked | internal/skills/coding/edit.go:201-241 | every text put on disk passed the checker, new scripts before they were wrapped, and a replacement changed the first occurrence of the searched text and nothing around it |
| EditEffects.CodeIsCarried | internal/skills/coding/dev_studio.go:132-138 | trimmed code arrives as it was sent, bare or between Markdown fences with or without `python` |
| EditEffects.WrittenAsSent | internal/skills/coding/edit.go:216-241 | a write is done exactly if there is code, the checker passes it and the disk takes it; it leaves the code that was sent, as it was checked, in its wrapper |
| EditEffects.ReplacedAsSent | internal/skills/coding/edit.go:179-214 | where the searched text occurs, a replacement is done exactly if the new text passes the checker and the disk takes it; the sent replacement then stands at the first occurrence and all else is kept |
| EditEffects.NothingToReplace | internal/skills/coding/edit.go:190-199 | a searched text that does not occur fails the edit |
| EditEffects.InstalledUnlessSystem | internal/skills/coding/edit.go:245-270 | spaced packages are accepted exactly if none is one of the six system tools; the script stays |
| EditEffects.RunLeavesItsTrace | internal/skills/coding/edit.go:272-373 | a test run is done exactly if its command succeeds, and leaves what the command left of the script |
| EditEffects.RegisteredAsNamed | internal/skills/coding/edit.go:332-371 | each test run the registry accepts makes one entry there, in order, with the parameters and packages named last before it |
| ToolEditors.RegistryKeptWhen | internal/skills/coding/edit.go:170-375 | a failing edit leaves the registry as it was in every world and on every script, if and only if no test run that can be reached stands before an action that can be reached and can fail |
| ToolEditors.OnlyLeakyEditsLeak | internal/skills/coding/edit.go:332-371 | an edit whose list of actions is not of that kind registers nothing before it fails |
| ToolEditors.LeakyEditsLeak | internal/skills/coding/edit.go:354-371 | for any list of that kind, a script and outcomes on which it fails and leaves a registration behind |
| ToolEditors.RegistrationSurvivesRollback | internal/skills/coding/edit.go:354-371 | the shortest such list, on any script |

## Left out

- HTTP, SSH, WhatsApp, the browser, Windows calls and Python: foreign calls, arbitrary inputs where they appear.
- The SQL engine: the table is a map, each statement is atomic and ids are never reused.
- Heartbeat.HeartbeatService.Pulse: one pulse is one step; in a finer split a pulse that selected rows before a one-off task completed could launch it again, so the launch bound is about uninterrupted pulses.
- The heartbeat's `Stop`, system tasks, `MaxConcurrentTasks`, the "stale" marking and statement errors: not implemented there or not claimed here.
- Sessions.Session.Run: one run at a time on a session, with asynchronous events; two overlapping runs on one history and tool workers that append after their batch has timed out are not modelled.
- Sessions.Session.Run: planning, the task keywords, the text fallbacks that recover tool calls and the wording of the order to use a tool are inputs; the uninitialised engine is not modelled.
- CancelOwnership.EveryLiveRunIsOwned: sessions are never deleted, so ephemeral `[WA-ALERT-` sessions, `CancelSession`, `cleanupSession`, `Shutdown` and colliding generated ids are excluded.
- Gemini.BuildRequest: images on disk come in as `found`; parsing tool output as JSON, `data:` URLs, tool declarations and the reply stream are not modelled.
- SseStream.Scanner.Scan: the scanner's hundred-empty-reads limit and the growth of its buffer below the limit are not modelled; what the console prints of a message neither.
- LineEdits.TextFile.LineEdit: backups, failing writes, opening the editor and the file guards of both tools.
- ToolEditors.ToolEditor.Execute: path normalisation, the report text, and the command line and environment of a test run, whose outcome is an input; the rollback's own write succeeds.
- A rate limiter built with a negative maximum, quiet hours and the notification channels behind the cooldown, and the log parsing in front of the brute-force tracker.
- The skill manager, database pool, logger hooks, file chunking and statistics are not modelled.
- The commented-out first half of `internal/ipc/local_api.go`: not live code.
