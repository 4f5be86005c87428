# AgentAPI: a verified model

AgentAPI runs a coding agent in a terminal, or over the Agent Client Protocol,
and gives it an HTTP interface: messages in, a chat history, a status, a screen
and a timeline of transcript events out. This project models the parts that
keep these views consistent and proves what they promise.

Two goroutines, a queue and a signal channel of capacity 1 and one lock keep
the chat history in step with the terminal. They are modelled as a state
machine whose steps are the locked sections of the source, and as a class whose
methods perform those steps on the source's fields. The theorems speak of all
runs of the state machine, and `PTYConversation.Follow` carries them to the
class. The other components follow the same plan: functions say what is meant,
methods with loops and fields do what the source does and are proved against
them, and lemmas prove what the source promises about the functions.

| file | models |
|---|---|
| Text.dfy | splitting, joining, trimming and searching: the library calls the rest is built on |
| RingBuffer.dfy, Conversations.dfy | the snapshot buffer, and the records of a chat history |
| PtyModel.dfy, PtyConversation.dfy | the terminal conversation as state machine and as class |
| PtyInvariants.dfy, PtyTheorems.dfy, PtyLimits.dfy | its joint invariant, its theorems, and runs that show where they end |
| EmitterModel.dfy, EventEmitter.dfy | the event emitter: stored state, bounded channels, numbered timeline |
| Replay.dfy, Timeline.dfy | what subscribers and pollers can rely on |
| Tail.dfy, Watcher.dfy | incremental reading of a transcript file, and the watcher over many files |
| Pipeline.dfy | file to poller, and screen to subscriber |
| UserInput.dfy, ScreenText.dfy, ToolCalls.dfy | from a screen to the text of an agent's message |
| CodexConfig.dfy | the managed part of a TOML file |
| Acp.dfy | the conversation of an agent that streams its answers |
| Links.dfy | URLs, and those a terminal has broken |
| WaitFor.dfy | waiting with growing intervals, and the carriage returns sent meanwhile |

Where the modelled code fails to meet a promise, the model keeps the code as it
is. A lemma then gives an input on which it fails, and where there is an exact
condition another one proves it:

- `screenDiff` panics on an Opencode screen of exactly two lines, and on no other input.
- A Claude message with two unfinished tool calls and a blank line only between
  them gets a range that ends at or before its start, and text is written twice or nothing is cut.
- A tick between the send loop's two receives that finds the screen stable
  leaves a spare signal, after which the status can read stable while a message
  is being sent; no other step does.
- A `Send` that queues after the send loop has exited is never answered; every other one has its answer by then.
- A restored history that is not well formed, or that ends in a user message
  with a prompt queued behind it, breaks the form of the history; nothing else does.
- A subscriber's copy follows an update exactly when the new message list is no
  shorter and keeps the ids where they were: a cleared history is not announced,
  and neither is the placeholder a failed ACP prompt takes away, which copies keep.
- After a failed prompt the ids of an ACP history are no longer positions.
- A URL that the terminal breaks within its scheme, or right behind it, is lost;
  and one whose last row fills the line takes along what the line below goes on with.
- The echo of an input whose first line is blank is never removed; `Send` refuses
  such an input, an initial prompt may be one.
- A poll that finds a transcript replaced by a file at least as long reads on in the middle of it.

`dafny verify dfyconfig.toml` checks the project.

## Model

| member | source | states |
|---|---|---|
| `PtyTheorems.OneMessageInFlight` | lib/screentracker/pty_conversation.go:241-309 | On every run: in each of its states, and once the send loop has received the message it was signalled, a pending stable signal means exactly one queued message and `sendingMessage` set, `sendingMessage` holds exactly while a signal is pending or a message is received or being sent, and from queueing until its send has returned a message shows in the status; all this holds if and only if no tick between the loop's two receives found the screen stable |
| `PtyTheorems.PromptPushNeverBlocks` | lib/screentracker/pty_conversation.go:241-248 | On every run: no tick can block on the full queue while it holds the lock, neither can a `Send` that passed its check; the queue holds at most one message; the initial prompt is queued at most once; until readiness the queue is empty and no `Send` is under way, and afterwards the prompt is empty or marked sent |
| `PtyTheorems.AnsweredExactlyOnce` | lib/screentracker/pty_conversation.go:269-309 | Error channels are answered in the order they were queued, at most one is open, and an answer of success is given for exactly the user messages that were appended; when the final drain can end every channel has its answer, and nothing is answered after it |
| `PtyTheorems.AnsweredUnlessLate` | lib/screentracker/pty_conversation.go:269-309 | On every run: once the send loop has exited, every error channel has its answer if and only if no `Send` queued its message after the exit |
| `PtyTheorems.AnswersOnlyGrow` | lib/screentracker/pty_conversation.go:271-303 | No step takes back an answer, and after the loop has exited no step answers |
| `PtyTheorems.ExitIsFinal` | lib/screentracker/pty_conversation.go:271-292 | An exited send loop stays exited, and its answers stay as they are, on every further run |
| `PtyTheorems.HistoryIsWellFormed` | lib/screentracker/pty_conversation.go:322-367 | On every run: in each state a message's id is its index, no two neighbours have the same role and no user message is on its way behind another, if and only if every restored history is well formed and no initial prompt is queued behind a restored history that ends in a user message |
| `PtyTheorems.StepEvolves` | lib/screentracker/pty_conversation.go:322-367 | Between clears and restores a step keeps the history, appends one message or rewrites a last agent message, and no tick changes it while a message is being written |
| `PtyTheorems.ScreenBeforeIsLatestDelivery` | lib/screentracker/pty_conversation.go:404-433 | Agent text is always computed against the screen read when the latest delivered message began to be written; a failed delivery leaves that screen alone |
| `PtyTheorems.DeliveryAppendsWhatWasSent` | lib/screentracker/pty_conversation.go:404-433 | A finished write appends one user message, and its text is what was given to the very `Send` its error channel was made for, or the initial prompt when there is no channel |
| `PtyTheorems.TickEmitsWhatItLeaves` | lib/screentracker/pty_conversation.go:214-267 | A tick that restores nothing hands the emitter exactly the history it leaves behind, and no step but a clear or a restore makes the history shorter |
| `PtyTheorems.BroadcastsGrow` | lib/screentracker/pty_conversation.go:214-267 | On every run without a clear, in which a restore may happen if what it restores is clean and not empty, the lists the ticks broadcast never get shorter and their ids are positions |
| `PtyTheorems.RestartKeepsConversation` | lib/screentracker/pty_conversation.go:228-248 | After loading a saved record the history is the saved one; the prompt is queued exactly when there is one and it differs from the saved prompt or the saved one was never sent; and if the saved history ends in an agent text that the tool-call formatter leaves alone, it stays on every further run until a user message goes out or the history is cleared |
| `PtyTheorems.RestoredHistoryRests` | lib/screentracker/pty_conversation.go:332-335 | A restored history that ends in an agent text the tool-call formatter leaves alone is not changed by any run in which no message is delivered and nothing cleared |
| `PtyTheorems.UnreadySendsNothing` | lib/screentracker/pty_conversation.go:224-248 | Before readiness no user message has been appended and the prompt is as configured and unsent, on every run, so a restore never meets a half-used conversation |
| `PtyTheorems.StableMeansUnchangedFor` | lib/screentracker/pty_conversation.go:537-548 | The screen counts as stable exactly when the last threshold screens agree; with ticks every I ms these span at least L ms, and one screen fewer would span less |
| `PtyModel.ThresholdSpans` | lib/screentracker/pty_conversation.go:117-125 | The threshold is the least number of snapshots, I ms apart, that span L ms, and 1 for L = 0 |
| `PtyInvariants.StepKeepsSafe` | lib/screentracker/pty_conversation.go:212-310 | The joint invariant of queue, flags, tickets, answers and start-up state is kept by every step |
| `PtyInvariants.StepKeepsSignalled` | lib/screentracker/pty_conversation.go:250-257 | A step keeps the signal and flag part of the invariant if and only if it is not a tick between the two receives that finds the screen stable |
| `PtyInvariants.RunKeepsSignalled` | lib/screentracker/pty_conversation.go:250-257 | So that part holds in every state of a run if and only if every step is such |
| `PtyInvariants.StepKeepsTidy` | lib/screentracker/pty_conversation.go:404-433 | A step keeps the form of the history, a pending user message included, if and only if it restores nothing or restores cleanly |
| `PtyInvariants.RunKeepsTidy` | lib/screentracker/pty_conversation.go:404-433 | So the form holds in every state of a run if and only if all its restores are clean |
| `PtyInvariants.RoomForPrompt` | lib/screentracker/pty_conversation.go:241-248 | In every safe state the push of the prompt finds the queue empty |
| `PtyInvariants.AcceptedMeansIdle` | lib/screentracker/pty_conversation.go:389-393 | A `Send` passes its check only when the agent is ready, nothing is queued or being sent, and the history does not end in a user message |
| `PtyInvariants.TickHistory` | lib/screentracker/pty_conversation.go:322-377 | What a tick may do to the history: replace it by a restored one, or let it evolve by the agent's turn; nothing while a message is written |
| `PtyLimits.SpareSignalHidesMessage` | lib/screentracker/pty_conversation.go:289-306 | A harmful tick shows: a concrete run in which a tick between the two receives finds the screen stable leaves a signal behind, and later a taken message goes with a stable status |
| `PtyLimits.LateSendHangs` | lib/screentracker/pty_conversation.go:395-399 | The answer claim ends with the final drain: a concrete run in which a `Send` that passed its check queues after it and is answered on no continuation |
| `PtyLimits.RestoredUserMessageDoubled` | lib/screentracker/pty_conversation.go:748-769 | An unclean load shows: a concrete run that restores a history ending in a user message, with a prompt queued behind it, ends with two user messages in a row |
| `PtyConversations.PTYConversation.constructor` | lib/screentracker/pty_conversation.go:178-210 | A new conversation holds one empty agent message and nothing else |
| `PtyConversations.PTYConversation.LastMessage` | lib/screentracker/pty_conversation.go:312-319 | The last message of a role, found from the back, or the zero message |
| `PtyConversations.PTYConversation.IsScreenStable` | lib/screentracker/pty_conversation.go:537-548 | True exactly when the buffer is full and all its screens equal the first |
| `PtyConversations.PTYConversation.GetStatus` | lib/screentracker/pty_conversation.go:551-591 | The status of the state machine, case by case and in the source's order |
| `PtyConversations.PTYConversation.AgentText` | lib/screentracker/pty_conversation.go:326-338 | The agent text: difference, formatting, the hold on a restored text, tool calls, in this order |
| `PtyConversations.PTYConversation.UpdateLastAgentMessage` | lib/screentracker/pty_conversation.go:322-367 | Nothing while writing or when the text is the last agent's; else a new agent message or the last one rewritten, with its position as id, and the dirty flag |
| `PtyConversations.PTYConversation.LoadState` | lib/screentracker/pty_conversation.go:712-773 | Which files restore, what a failure tells the user, and the messages, prompt and sent flag after each case; a failure changes nothing |
| `PtyConversations.PTYConversation.Tick` | lib/screentracker/pty_conversation.go:214-267 | One locked tick is the tick of the state machine, with the status and list it emits read before readiness, restoring and the prompt |
| `PtyConversations.PTYConversation.PushInitialPrompt` | lib/screentracker/pty_conversation.go:241-248 | The prompt is queued and marked sent exactly when ready, present and unsent, and only into an empty queue |
| `PtyConversations.PTYConversation.RaiseStableSignal` | lib/screentracker/pty_conversation.go:250-257 | The signal and the flag are raised together, when something is queued, the screen is stable and no signal is pending |
| `PtyConversations.PTYConversation.Send` | lib/screentracker/pty_conversation.go:379-393 | The four outcomes of the check, in order; only acceptance changes anything |
| `PtyConversations.PTYConversation.RecvMessage` | lib/screentracker/pty_conversation.go:290-306 | The inner select: the queued message is taken, or an empty queue sends the loop back to waiting |
| `PtyConversations.PTYConversation.BeginWrite` | lib/screentracker/pty_conversation.go:404-412 | The agent's turn is brought up to date with the screen before the message, then writing begins |
| `PtyConversations.PTYConversation.FinishOk` | lib/screentracker/pty_conversation.go:421-432 | The screen, the user message with its position as id, and both flags, after a successful write |
| `PtyConversations.PTYConversation.FinishError` | lib/screentracker/pty_conversation.go:414-419 | A failed write only ends the writing |
| `PtyConversations.PTYConversation.Reply` | lib/screentracker/pty_conversation.go:298-303 | Exactly one answer for a message with an error channel, none for the prompt |
| `PtyConversations.PTYConversation.Drain` | lib/screentracker/pty_conversation.go:271-284 | Each queued message is answered with the cancellation |
| `PtyConversations.PTYConversation.SaveState` | lib/screentracker/pty_conversation.go:624-708 | Nothing happens when saving is off or nothing changed; otherwise the file holds the current record and the flag is cleared, or, whichever operation failed on the way, that error is returned, the file is as it was, and the same record is still to be saved |
| `PtyConversations.PTYConversation.Perform` | lib/screentracker/pty_conversation.go:212-310 | Whatever the scheduler picks next, the object makes that step of the state machine |
| `PtyConversations.PTYConversation.Follow` | lib/screentracker/pty_conversation.go:212-310 | The object follows every run of the state machine, so all theorems about runs are about the object |
| `RingBuffers.RingBuffer.Add` | lib/screentracker/ringbuffer.go:22-28 | After any adds the buffer stands for all items added, by writing one slot |
| `RingBuffers.RingBuffer.GetAll` | lib/screentracker/ringbuffer.go:31-37 | The last min(count, size) items added, oldest first |
| `Replay.ReplayPlusLive` | lib/httpapi/events.go:200-252 | At any moment of any run whose lists extend each other, ids included, folding a subscription's replayed and carried events by looking up ids, as the chat page does, gives exactly the emitter's messages, status and screen; a dropped subscriber has carried a prefix of the broadcasts; no buffer exceeds the capacity |
| `Replay.FollowsUnlessShrunk` | lib/httpapi/events.go:222-252 | Following one operation's broadcasts keeps a copy equal to the emitter's state if and only if the operation hands over a list that is no shorter and has the old ids where the old list had them |
| `Replay.StaysInStep` | lib/httpapi/events.go:200-252 | So a subscription whose replayed and broadcast events fold to the emitter's state stays so through an operation if and only if the operation extends the list |
| `Replay.CopiesOnlyExtend` | lib/httpapi/events.go:224-252 | No sequence of updates takes a message from a copy or changes its id |
| `Replay.ReplayRebuilds` | lib/httpapi/events.go:348-387 | The state events alone rebuild the current messages, status and screen from nothing |
| `Replay.RunFaithful` | lib/httpapi/events.go:200-220 | On every run an open channel has carried every broadcast since its subscription and a closed one a prefix of them, and no id is open and closed at once |
| `Replay.DiffFold` | lib/httpapi/events.go:224-252 | Folding the updates of a message diff into a copy, each update found by its id, overlays the new list on the old one |
| `Timeline.PollerNeverRepeats` | lib/httpapi/events.go:330-345 | A poller that asks with the largest id it has seen gets strictly rising ids, each event as it was issued, on every run with clears and overflow |
| `Timeline.PollerMissesNothing` | lib/httpapi/events.go:303-345 | If between two polls at most 10000 events are emitted and none cleared, the poller has seen every event issued, once, in order |
| `Timeline.ApplyKeepsTimeline` | lib/httpapi/events.go:303-326 | Ids count the events issued across clears and overflow, and what is retained is exactly the last 10000 of those issued since the last clear |
| `Timeline.SinceSelects` | lib/httpapi/events.go:330-345 | A query answers exactly the stored events after the given id and of the given kind, any kind for the empty one |
| `Timeline.SinceRises` | lib/httpapi/events.go:330-345 | The answer keeps the order of the ids and holds none at or below the one asked with |
| `Timeline.SubscriberSeesNoGap` | lib/httpapi/events.go:373-403 | A live subscriber's replayed and live timeline ids form one interval without a gap |
| `EventEmitters.EventEmitter.NotifyChannels` | lib/httpapi/events.go:200-220 | Every channel with room gets the event once, every full one is closed, in whatever order they are visited |
| `EventEmitters.EventEmitter.EmitMessages` | lib/httpapi/events.go:224-252 | Updates for exactly the positions that differ, in order, then the new list is stored; positions past the new list's end are skipped |
| `EventEmitters.EventEmitter.EmitStatus` | lib/httpapi/events.go:254-268 | A broadcast only on change, of the converted status |
| `EventEmitters.EventEmitter.EmitScreen` | lib/httpapi/events.go:270-280 | A broadcast only on change, of the screen without its trailing white space |
| `EventEmitters.EventEmitter.EmitTimelineEvent` | lib/httpapi/events.go:303-317 | The next id, the bounded store and the broadcast of one event |
| `EventEmitters.EventEmitter.ClearTimeline` | lib/httpapi/events.go:322-326 | The store is emptied, the ids go on |
| `EventEmitters.EventEmitter.Timeline` | lib/httpapi/events.go:330-345 | The query's filter over the stored events, in their order |
| `EventEmitters.EventEmitter.CurrentStateAsEvents` | lib/httpapi/events.go:348-387 | Messages, status, screen, errors and the last 500 timeline events, in this order |
| `EventEmitters.EventEmitter.Subscribe` | lib/httpapi/events.go:393-403 | A fresh id, an empty channel, and a replay taken in the same instant |
| `EventEmitters.EventEmitter.Unsubscribe` | lib/httpapi/events.go:406-415 | The channel is closed and forgotten, what it holds may still be drained |
| `Tail.SplittingIsInvisible` | lib/transcript/tail.go:32-96 | However the reading of a growing file is split into calls, the calls together consume the file and return exactly the lines one call would |
| `Tail.NothingLostAcrossShrinks` | lib/transcript/tail.go:32-96 | Whatever happens to the file, all calls together return, stretch by stretch between two shrinks, exactly the complete lines of the bytes consumed in the stretch: trailing returns stripped, empty and over-long lines dropped |
| `Tail.StretchesAreTheCalls` | lib/transcript/tail.go:46-55 | The stretches put end to end are all the calls made |
| `Tail.NothingLost` | lib/transcript/tail.go:32-96 | While a file grows there is one stretch: the calls together return exactly the complete lines of the bytes consumed |
| `Tail.NewLinesComplete` | lib/transcript/tail.go:32-96 | A call on a file that has not shrunk returns just the lines that its bytes complete |
| `Tail.ReplacementIsReadAfresh` | lib/transcript/tail.go:46-55 | From the call that finds the file shorter than the offset on, bytes and lines are as if reading began with that call, however the rest is split into calls and whether or not some of them fail part of the way |
| `Tail.ReplacementLosesNothing` | lib/transcript/tail.go:46-55 | So while the new content grows, the lines returned after the shrink are exactly the complete lines of the bytes read of it |
| `Tail.ReadsTheFile` | lib/transcript/tail.go:46-55 | What was read is the file's own beginning if and only if the part read before still stands in it, or a shrink was noticed |
| `Tail.ReplacedUnnoticed` | lib/transcript/tail.go:46-55 | An unnoticed replacement shows: a concrete file, replaced by a longer one, makes two calls return a line that neither file ever held |
| `Tail.AbsorbSound` | lib/transcript/tail.go:58-95 | The carry and skip bookkeeping on one chunk agrees with splitting all bytes at newlines |
| `Tail.Tailer.Drain` | lib/transcript/tail.go:32-96 | The lines of one call, the error it reports, the bytes it accounts for, and `carry` never above the line limit |
| `Tail.Tailer.AbsorbChunk` | lib/transcript/tail.go:66-87 | Carrying, skipping and yielding of one chunk, over-long lines included |
| `Tail.ReadBytes` | lib/transcript/tail.go:59-64 | A chunk up to and including the next newline, or the rest |
| `Watchers.Watcher.Loop` | lib/transcript/watcher.go:83-107 | For any discoveries and files, the events handled are the parse of the lines read of each tailed file in turn, in order, with exactly one switch event between two files |
| `Watchers.NothingLostOrRepeated` | lib/transcript/watcher.go:83-154 | Whatever the tailed files do, the stream is the parse of exactly the complete lines read of each, from the start again wherever a file was found shorter; where a stretch of reads saw its file only grow and the last one succeeded, what was read is the whole file as that read saw it |
| `Watchers.GrowingSessions` | lib/transcript/watcher.go:83-154 | For files that only grow these are the complete lines of all bytes consumed of each file |
| `Watchers.SwitchesFlush` | lib/transcript/watcher.go:111-134 | Two neighbouring sessions tail different files, no session has an empty path, and each session was read once more before it was left |
| `Watchers.Watcher.Discover` | lib/transcript/watcher.go:111-134 | When to stay, when to switch, and the flush before a switch |
| `Watchers.Watcher.Drain` | lib/transcript/watcher.go:136-154 | The new lines of the tailed file are parsed and handled in order, whatever the read reports |
| `EventStreams.ParseAllConcat` | lib/transcript/watcher.go:136-154 | A parser with memory fed in two portions makes the events of one |
| `Pipeline.TranscriptReachesPoller` | lib/transcript/watcher.go:83-154 | From file bytes to poller: an unhurried poller has seen exactly the parse of the complete lines read of each file in turn, replaced files read from their start again, one switch event between two files, numbered consecutively from 0 |
| `Pipeline.EmitterNumbersStream` | lib/httpapi/events.go:303-317 | Whatever else is emitted or cleared in between, the watcher's stream is issued in order with consecutive ids |
| `Pipeline.ScreenReachesSubscriber` | lib/screentracker/pty_conversation.go:258-266 | From screen to subscriber, restarts with a clean and non-empty record included: whenever it subscribed, a subscriber that was not dropped has been given and has waiting what folds to the last history a tick handed over |
| `Pipeline.LastBroadcastIsHistory` | lib/screentracker/pty_conversation.go:258-266 | And after a tick that did not itself restore, that last list is the conversation's history |
| `Pipeline.FormatterLeavesAlone` | lib/screentracker/pty_conversation.go:332-338 | What the formatter the server configures leaves alone, so that it stays after a restart: a Codex text exactly when it holds no finished report and no newline at its end; a Claude text, one with a left-over blank line apart, exactly when no report begins in it and no newline stands at its start; any other agent's text always |
| `Pipeline.GrowingListsGrow` | lib/httpapi/events.go:222-252 | Lists that get no shorter and whose ids are positions keep every copy in step, whatever happens to the channels in between |
| `Pipeline.StreamingStepExtends` | x/acpio/acp_conversation.go:100-147 | A step of the streaming conversation extends its list, ids included, if and only if it is no clear and no failed prompt, or there was nothing to take away |
| `Pipeline.FailedPromptStaysOnCopies` | x/acpio/acp_conversation.go:259-277 | After a chunk was shown, a failed prompt's placeholder leaves the history but the emitter announces nothing; every subscriber's copy keeps that message at its place, whatever is broadcast later |
| `UserInput.MatchesAreCommon` | lib/msgfmt/msgfmt.go:104-156 | The echo matcher is sound: its matches are a common subsequence of message and input, strictly rising on both sides with gaps of at most five runes |
| `UserInput.EchoIsFollowed` | lib/msgfmt/msgfmt.go:111-156 | When the rest of the input follows in the message, the matcher walks along it to its last rune |
| `UserInput.WholeEchoEnds` | lib/msgfmt/msgfmt.go:185-224 | When the whole input, white space ignored, is echoed at the found start, the matcher ends on the last echoed rune |
| `UserInput.WholeEchoIsCut` | lib/msgfmt/msgfmt.go:185-224 | Then `RemoveUserInput` returns exactly what stands below that rune's line |
| `UserInput.BelowIs` | lib/msgfmt/msgfmt.go:185-224 | That is all lines after it, for the agents that draw something under the echo all after what they draw |
| `UserInput.EchoedInputIsRemoved` | lib/msgfmt/msgfmt.go:185-224 | A message that begins with an echo of the input, broken over lines in any way up to a last line that is not blank, loses exactly the echo's lines and those the agent draws under it, if the input's first line is not blank; otherwise it loses nothing |
| `UserInput.EchoFoundAtOnce` | lib/msgfmt/msgfmt.go:60-102 | An echo at the top is found at rune 0 if the input's first line is not blank, and not at all otherwise |
| `UserInput.BlankFirstLineKeepsAll` | lib/msgfmt/msgfmt.go:60-102 | An input whose first line is blank is never removed from any message |
| `UserInput.EchoOfBlankLineStays` | lib/msgfmt/msgfmt.go:60-102 | A concrete message that keeps the echo of such an input |
| `UserInput.HitFromIsFirst` | lib/msgfmt/msgfmt.go:111-140 | The bounded search finds the first hit in its order, and misses one only behind a cell that stopped it |
| `UserInput.LastMatchIsLast` | lib/msgfmt/msgfmt.go:144-156 | The loop that keeps only the latest match ends with the last of the chain of matches |
| `UserInput.IndexSubslice` | lib/msgfmt/msgfmt.go:18-39 | The first occurrence, or -1 exactly when there is none; an empty slice occurs at once |
| `UserInput.NormalizeAndGetRuneLineMapping` | lib/msgfmt/msgfmt.go:44-57 | The runes that are not white space and, for each, its line |
| `UserInput.FindUserInputStartIdx` | lib/msgfmt/msgfmt.go:60-102 | The first place where the input's prefix of up to six runes occurs in the message's prefix; the code takes six lines or 25 runes of the message, one line more than its comment says |
| `UserInput.FindNextMatch` | lib/msgfmt/msgfmt.go:111-140 | The two bounded loops, with the skipping of white space in the input and both ways of stopping early |
| `UserInput.FindUserInputEndIdx` | lib/msgfmt/msgfmt.go:144-156 | The message index of the last match of the chain from the start |
| `UserInput.SkipTrailingInputBoxLine` | lib/msgfmt/msgfmt.go:163-174 | The next line is skipped exactly when it contains all markers |
| `UserInput.RemoveUserInput` | lib/msgfmt/msgfmt.go:185-224 | The message below the last echoed line and what the agent draws under it; the message itself when there is no input or no echo |
| `ScreenText.MessageIsOnScreen` | lib/screentracker/diff.go:10-58 | For every agent type, the text computed from a screen by difference and formatting is a contiguous block of that screen's lines whose first and last lines are not blank, or is empty; a Codex text may lack the prompt and the line below it before its last line, an Amp text may be the fixed welcome, an unknown agent's block keeps its blank ends |
| `ScreenText.NothingNewGivesNothing` | lib/screentracker/diff.go:10-58 | A screen whose lines, apart from an Opencode header, all occur in the old screen gives the empty text, and for Amp the welcome |
| `ScreenText.DiffIsBlock` | lib/screentracker/diff.go:10-58 | The difference alone is a block of the new screen |
| `ScreenText.WithoutInputIsBlock` | lib/msgfmt/msgfmt.go:185-224 | Removing the input leaves a block a block |
| `ScreenText.TrimmedBlock` | lib/msgfmt/msgfmt.go:226-245 | Trimming blank lines leaves a block whose ends are not blank, or nothing |
| `ScreenText.PanicsOnTwoLines` | lib/screentracker/diff.go:24-32 | The difference panics if and only if the agent is Opencode and the screen has exactly two lines |
| `ScreenText.TwoLinesPanic` | lib/screentracker/diff.go:24-32 | A concrete screen of two lines on which the difference panics |
| `ScreenText.ScreenDiff` | lib/screentracker/diff.go:10-58 | The lines from the first one the old screen did not have, an Opencode header left out, with its empty ends cut |
| `ScreenText.TrimEmptyLines` | lib/msgfmt/msgfmt.go:226-245 | The lines without the blank ones at either end |
| `ScreenText.FindGreaterThanMessageBox` | lib/msgfmt/message_box.go:19-29 | The latest of the last six lines with a prompt sign, or the border right above it, or -1 |
| `ScreenText.FindGenericSlimMessageBox` | lib/msgfmt/message_box.go:35-44 | The latest slim box among the last nine lines, or -1 |
| `ScreenText.SlimBox` | lib/msgfmt/message_box.go:35-44 | The result is a slim box and no later one exists, or there is none at all in reach |
| `ScreenText.RemoveMessageBox` | lib/msgfmt/message_box.go:46-59 | The lines above the box, the prompt-sign box being tried first |
| `ScreenText.RemoveOpencodeMessageBox` | lib/msgfmt/message_box.go:70-87 | The lines above the Opencode box |
| `ScreenText.RemoveCodexMessageBox` | lib/msgfmt/message_box.go:61-68 | The prompt line third from the end and the line below it are cut, the last line stays; nothing is cut without a prompt there |
| `ScreenText.RemoveAmpMessageBox` | lib/msgfmt/message_box.go:89-108 | The lines above the box, or the welcome when these hold no text |
| `ScreenText.AmpBoxIsLast` | lib/msgfmt/message_box.go:89-108 | The box ends on the last closing line and starts on the nearest opening line above it; there is none exactly when no opening line has a closing one below it |
| `ScreenText.FormatAgentMessage` | lib/msgfmt/msgfmt.go:265-322 | For every agent type: input removed, the box of that agent removed, blank ends trimmed, in this order; an unknown agent's message is left as it is |
| `Text.JoinSplit` | lib/msgfmt/msgfmt.go:44-57 | Splitting and joining on a newline is a round trip |
| `Text.LinesOfUnlines` | lib/msgfmt/msgfmt.go:226-245 | Joining and splitting is one too, except that no line and one empty line are the same text |
| `Text.ContainsMeans` | lib/msgfmt/message_box.go:9-12 | What `Contains` finds is exactly what occurs somewhere |
| `Text.LastWhereIsLast` | lib/msgfmt/message_box.go:19-29 | The search from the back ends on an element that satisfies the condition and has none after it, or there is none in reach |
| `Text.BlankIsTrimmedAway` | lib/msgfmt/msgfmt.go:226-245 | A line counts as blank exactly when trimming its white space leaves nothing |
| `ToolCalls.ScanFindsTheCalls` | lib/msgfmt/format_tool_call.go:25-44 | The scan finds exactly the calls: a first line and the next last line with no other first line between them |
| `ToolCalls.CodexRangesAreOrdered` | lib/msgfmt/format_tool_call.go:79-107 | The ranges of a Codex message are always in bounds, non-empty, ordered and disjoint |
| `ToolCalls.ClaudeRangesAreOrdered` | lib/msgfmt/format_tool_call.go:25-53 | The removal never leaves the text; its ranges are non-empty, ordered and disjoint if and only if no blank line before the last, unfinished call was left over from an earlier unfinished one |
| `ToolCalls.LeftoverBlankLineRepeatsText` | lib/msgfmt/format_tool_call.go:46-53 | That condition is needed: a concrete message in which nothing is cut and a line is written twice |
| `ToolCalls.CuttingLeavesTheRest` | lib/msgfmt/format_tool_call.go:60-73 | Cutting ordered ranges from the back leaves exactly the lines outside all ranges, in order |
| `ToolCalls.ReinsertingRestores` | lib/msgfmt/format_tool_call.go:60-73 | Putting the cut blocks back where their ranges began gives the original lines |
| `ToolCalls.CallsAreTheBlocks` | lib/msgfmt/format_tool_call.go:46-74 | For any ranges within the text, unfinished ones among them: one call is collected for each finished range, last first, and it reads exactly as the lines of its range in the original |
| `ToolCalls.CodexMessageIsCut` | lib/msgfmt/format_tool_call.go:76-126 | Every Codex message: what is left is the lines outside its ranges, putting the blocks back gives the message's lines, and the calls collected are exactly the blocks of all ranges, last first |
| `ToolCalls.ClaudeMessageIsCut` | lib/msgfmt/format_tool_call.go:13-74 | The same for every Claude message in which no blank line before the last, unfinished report was left over from an earlier unfinished one; the calls collected are the blocks of the finished reports, an unfinished last one is cut but not collected |
| `ToolCalls.OrderedIs` | lib/msgfmt/format_tool_call.go:116-124 | Ordered means: in bounds, non-empty, and every earlier range ends before every later one begins |
| `ToolCalls.StaleBlankIsRemembered` | lib/msgfmt/format_tool_call.go:40-53 | The scan ends with its blank-line mark at or before the open call exactly for two unfinished calls with a blank line only between them |
| `ToolCalls.CutRanges` | lib/msgfmt/format_tool_call.go:60-73 | The deletion loop: what is left and what is collected |
| `ToolCalls.RemoveCodexReportTaskToolCall` | lib/msgfmt/format_tool_call.go:76-126 | The message without its reports and without newlines at its end, and the reports |
| `ToolCalls.RemoveClaudeReportTaskToolCall` | lib/msgfmt/format_tool_call.go:13-74 | The message without its reports, finished or not, and without newlines at its start, and the finished reports |
| `ToolCalls.FormatToolCall` | lib/msgfmt/format_tool_call.go:128-157 | Claude and Codex messages lose their reports and the collected calls are those of the finished ranges; any other message is left as it is, without calls |
| `ToolCalls.UnreportedTextStays` | lib/msgfmt/format_tool_call.go:109-112 | A Codex message with no finished report loses only the newlines at its end |
| `ToolCalls.CodexLeavesAlone` | lib/msgfmt/format_tool_call.go:76-126 | A Codex message is left as it is if and only if it holds no finished report and no newline at its end |
| `ToolCalls.ClaudeLeavesAlone` | lib/msgfmt/format_tool_call.go:13-74 | A Claude message without a blank line left over from an unfinished report is left as it is if and only if no report begins in it and no newline stands at its start |
| `CodexConfig.ReplacingTwiceIsReplacingOnce` | lib/mcpconfig/codex.go:79-125 | Replace(Replace(f, A), B) = Replace(f, B), byte for byte |
| `CodexConfig.ReplacingKeepsContent` | lib/mcpconfig/codex.go:79-116 | Everything in the file that is not an mcp_servers part is the same after a replacement |
| `CodexConfig.FilterKeepsTheRest` | lib/mcpconfig/codex.go:85-104 | A line is kept exactly when it is no marker, no root assignment of mcp_servers, and its nearest table header is not one of mcp_servers |
| `CodexConfig.FilterIsIdempotent` | lib/mcpconfig/codex.go:85-104 | What the filter keeps, it keeps again |
| `CodexConfig.McpHeaderMeans` | lib/mcpconfig/codex.go:65-67 | A line is taken for an mcp_servers header if and only if it is white space, one or two brackets, white space, the name, quoted or not, white space, and a closing bracket or a dot |
| `CodexConfig.McpAssignMeans` | lib/mcpconfig/codex.go:72-73 | A line is taken for an assignment if and only if it is the name, quoted or not, with white space around it, and an equals sign |
| `CodexConfig.HeaderMeans` | lib/mcpconfig/codex.go:69-70 | A line is taken for a header if and only if it is white space and then a bracket |
| `CodexConfig.MarkerMeans` | lib/mcpconfig/codex.go:75-77 | A line is taken for a marker if and only if it is white space and then one of the two comments that frame the managed block |
| `CodexConfig.PlaceIsLastHeader` | lib/mcpconfig/codex.go:87-103 | The two flags of the filter say which header came last |
| `CodexConfig.ManagedBlockIsCut` | lib/mcpconfig/codex.go:89-104 | A managed block behind kept lines is cut without a trace |
| `CodexConfig.OneManagedBlock` | lib/mcpconfig/codex.go:110-116 | After any replacement of any file it has two markers besides those the encoder writes itself, or none when there are no servers: blocks never stack |
| `CodexConfig.LinesWithBlock` | lib/mcpconfig/codex.go:110-116 | The lines of the rewritten file: the content, a blank line, the markers, and between them the encoder's lines and no others |
| `CodexConfig.CodexStore.KeepOthers` | lib/mcpconfig/codex.go:85-103 | The loop with its two flags keeps exactly the filter's lines in order |
| `CodexConfig.CodexStore.Replace` | lib/mcpconfig/codex.go:79-125 | The new file, a missing one counting as empty; after a failure to read, encode or make the directory the file is as it was |
| `AcpConversations.EveryRunIsTidy` | x/acpio/acp_conversation.go:100-147 | On every run ids strictly rise, every agent message follows the user message with the id one smaller, and while prompting the list is empty or ends in an agent message that reads as the stream |
| `AcpConversations.WholeExchange` | x/acpio/acp_conversation.go:100-297 | An accepted message, any chunks and rejected messages, then success: the history gains the message and the chunks put together; then failure: it gains the message alone, and both ids stay used |
| `AcpConversations.StreamIsTheChunks` | x/acpio/acp_conversation.go:198-216 | While a prompt runs the last message is all chunks accepted since it began, one after another, and no other message gets through |
| `AcpConversations.ClearedStream` | x/acpio/acp_conversation.go:81-87 | After a clear in mid-prompt the list stays empty while the text received since is still gathered |
| `AcpConversations.IdsAreNotReused` | x/acpio/acp_conversation.go:116-133 | Between two clears ids are never given out twice, failed prompts or not, and earlier messages keep id, role and place |
| `AcpConversations.LateChunksChangeNothing` | x/acpio/acp_conversation.go:198-208 | Chunks that come when no prompt runs change nothing |
| `AcpConversations.PositionsNeedEveryId` | x/acpio/acp_conversation.go:116-133 | After the next message ids are positions if and only if no id is missing from the history |
| `AcpConversations.MissingIdsAreFailures` | x/acpio/acp_conversation.go:259-277 | The ids missing are one for each prompt that failed since the last clear |
| `AcpConversations.FailedPromptShiftsIds` | x/acpio/acp_conversation.go:259-277 | So one failure is enough: a concrete run with id 2 at position 1 |
| `AcpConversations.ACPConversation.BeginSend` | x/acpio/acp_conversation.go:100-139 | The four outcomes in order; only acceptance changes the state, by a user message and an empty placeholder |
| `AcpConversations.ACPConversation.HandleChunk` | x/acpio/acp_conversation.go:198-216 | A chunk lengthens the stream and the placeholder, or nothing when no prompt runs |
| `AcpConversations.ACPConversation.EndPrompt` | x/acpio/acp_conversation.go:259-297 | Success settles the placeholder's text, failure removes it; ids and stream stay |
| `AcpConversations.ACPConversation.ClearMessages` | x/acpio/acp_conversation.go:81-87 | The list, the ids and the stream start over; a running prompt runs on |
| `Links.WrappedUrlIsRecovered` | lib/httpapi/links.go:61-89 | Below any lines without a URL, behind text of its own row in which no scheme begins, and above any lines: a URL broken at a width of at least 78, whose last row is not full or stands above a line that does not go on with a URL character, is the first one extracted, equal to `trimURL` of the unbroken URL, when its first row has room for its scheme and one character more; with no URL below it, it is extracted if and only if it has that room |
| `Links.BrokenUrlIsRecovered` | lib/httpapi/links.go:61-89 | The same for a URL broken inside a box: margins of box characters and trailing blanks on any of its rows, each piece but the last ending at or past byte 78; recovered when, and with no URL below it only when, its first row holds its scheme and one character more |
| `Links.FirstTextIsUrl` | lib/httpapi/links.go:61-89 | Where its first row does hold that, the first text found is the unbroken URL if and only if its last row is not full, or the line below it is missing or does not go on with a URL character |
| `Links.SchemeAtTheEdge` | lib/httpapi/links.go:61-89 | A URL broken within its scheme is lost: after 74 characters `http://a.b` is broken behind `http` at width 78, and nothing is extracted |
| `Links.FirstUrlIsJoined` | lib/httpapi/links.go:61-101 | On any line below lines without a URL: the first match, joined with the pieces below it, is the first URL extracted |
| `Links.JoinedUrlIsExtracted` | lib/httpapi/links.go:61-101 | On any line, behind any other matches: a match joined with the pieces below it is among the URLs extracted |
| `Links.FullRowTakesAlong` | lib/httpapi/links.go:61-89 | A full last row shows: a URL of 78 characters above the word `and` is found with that word at its end |
| `Links.PiecesAreJoined` | lib/httpapi/links.go:66-85 | Whatever margins and trailing blanks the lines have, the pieces that fill their lines are joined in order, followed by what is joined to the last of them |
| `Links.JoinedExactly` | lib/httpapi/links.go:66-85 | So a match comes out as exactly its pieces if and only if nothing follows the last one |
| `Links.MatchMeans` | lib/httpapi/links.go:17-20 | A text begins with a match of n characters if and only if these are a URL that the next character cannot lengthen |
| `Links.MatchesAreUrls` | lib/httpapi/links.go:17-20 | Every match is a scheme with at least one character more, of URL characters only |
| `Links.FirstMatchIs` | lib/httpapi/links.go:17-20 | Where no scheme begins earlier, the first match is the URL up to the next character that cannot be part of one |
| `Links.TrimmedIsBalanced` | lib/httpapi/links.go:35-42 | A trimmed URL leaves no opening parenthesis without its closing one |
| `Links.TrimFixes` | lib/httpapi/links.go:35-42 | A URL stays as it is if and only if behind its last untrimmed character come just the closing parentheses it misses |
| `Links.TrimIsIdempotent` | lib/httpapi/links.go:35-42 | Trimming twice is trimming once |
| `Links.UrlKeepsText` | lib/httpapi/links.go:46-55 | A text that begins with a match never trims to nothing |
| `Links.TrimURL` | lib/httpapi/links.go:35-42 | The balancing loop ends, with one closing parenthesis for each missing |
| `Links.Follow` | lib/httpapi/links.go:68-85 | The loop down the lines ends, with the match and what the following lines add to it |
| `Links.ExtractURLs` | lib/httpapi/links.go:46-55 | The trimmed matches of a text in order |
| `Links.ExtractURLsFromScreen` | lib/httpapi/links.go:61-101 | The trimmed, joined matches of all lines in order |
| `Waiting.WaitFor` | lib/util/util.go:28-87 | Check k begins exactly its interval after check k - 1 ended, none begins after the timeout, all checks but the last said no, and the wait times out only when the next check would come at the timeout or later |
| `Waiting.IntervalsDouble` | lib/util/util.go:53-85 | The sleep before check k is min(minInterval * 2^k, maxInterval) |
| `Waiting.FewReturns` | lib/screentracker/pty_conversation.go:494-523 | At most six carriage returns per message, at least 3 s apart, the first at once |
| `Waiting.AwaitProcessing` | lib/screentracker/pty_conversation.go:492-525 | The whole second phase: the checks follow the schedule, a carriage return goes out exactly at the first check and at those 3 s after the last return, so at most six; success means the last check saw the screen change, and a failure that is neither a cancellation nor an error comes only when every check said no and the next one would come at the timeout |

## Left out

- PtyTheorems.OneMessageInFlight: is the exact condition; the queue, prompt, answer and history theorems hold with harmful ticks too.
- PtyTheorems.AnsweredExactlyOnce: speaks of the answers up to the final drain; PtyTheorems.AnsweredUnlessLate is the exact condition for what comes after it. That the scheduler lets each thread go on is not part of this model.
- PtyTheorems.HistoryIsWellFormed: is the exact condition; the source restores whatever the file holds and queues a prompt behind it (PtyLimits.RestoredUserMessageDoubled).
- PtyTheorems.RestartKeepsConversation: speaks of records as the source writes them; a prompt with hidden or aliased parts comes back as its shown text, as in the source.
- PtyConversations.PTYConversation.Tick: is one atomic step, as the lock makes it; the three emits after the lock is released are its results. The fatal branch of a nil channel or closed context is not modelled.
- PtyConversations.PTYConversation.Send: at most one call is outstanding at a time, which the lock of the HTTP layer enforces (lib/httpapi/server.go:661).
- PtyConversations.PTYConversation.SaveState: knows the temporary file only by the failures it can bring, not its clean-up; and it makes no claim that the file is up to date, since user messages and clears do not set the dirty flag.
- PtyConversations.PTYConversation.LoadState: knows a file as missing, unreadable, corrupt or a record; JSON is not part of this model.
- The set of tool calls already logged, logging itself, and the real clock of snapshots: no state that is modelled depends on them.
- Writing to the terminal and the first phase of `writeStabilize` (echo detection): the begin of a write, its success and its failure are events; only the wait of the second phase is modelled in time.
- Replay.ReplayPlusLive: covers lists that extend each other; Replay.FollowsUnlessShrunk is the exact condition for one operation, clears and failed ACP prompts do not meet it, and Pipeline.FailedPromptStaysOnCopies shows what a copy then holds.
- EventEmitters.EventEmitter.Unsubscribe: requires the id to be registered, because closing a channel that a full buffer already closed panics.
- EventEmitters.EventEmitter.EmitStatus: has no failure of the status conversion, since every status of the model converts.
- Tail.Tailer.Drain: a read sees one content of the file; the opening, seeking and reading errors of the source are cases of that view. A file that is replaced by one at least as long is not noticed, in the source or here; Tail.ReadsTheFile is the exact condition under which what was read is the file's own beginning.
- Watchers.Watcher.Loop: takes discovery and the parser as given; the parser may be any function of the lines it was fed so far. The context and the ticker become the number of polls, and the times of events are left out.
- Pipeline.ScreenReachesSubscriber: speaks of runs without a clear and without a restore of an unclean or empty history, for the reason above, and of messages only.
- ScreenText.ScreenDiff: requires a screen on which the source does not panic, which ScreenText.PanicsOnTwoLines characterises.
- Characters are Unicode scalar values; text that is not valid UTF-8 is not modelled, and byte lengths are computed where the source takes them.
- ToolCalls.ClaudeRangesAreOrdered: is the exact condition under which the cutting theorems, and ToolCalls.ClaudeLeavesAlone, apply to Claude messages; outside it the model does what the source does (ToolCalls.LeftoverBlankLineRepeatsText).
- CodexConfig.ReplacingTwiceIsReplacingOnce: relies on what the TOML encoder is taken to write: nothing for no servers, else lines that begin with an mcp_servers header, hold no other header, and end in a newline. The encoder, the JSON decoding and the reading of servers are not part of this model.
- CodexConfig.CodexStore.Replace: takes a write that was begun to succeed.
- AcpConversations.ACPConversation.EndPrompt: the 100 ms wait for a last chunk is a choice of when the prompt ends, and the order in which chunks emit after unlocking is not modelled.
- Links.WrappedUrlIsRecovered: breaks after a number of characters, as a terminal does for characters of width one; when a line below holds a URL as well, it does not say whether that one is the same. The lines of a broken URL may hold a second scheme, and such later matches are extracted too, as in the source.
- Links.ExtractURLsFromScreen: the handler that merges timeline and message links without duplicates is not part of this model.
- Waiting.WaitFor: lets time pass only while sleeping and checking; scheduling delays are part of a check's duration, and ties between timers may go either way. A cancelled context is a time after which a sleep may end.
- HTTP routing, server-sent events, uploads, authentication, the terminal emulator, processes, the command line and the chat interface: not part of this model.
- The transcript parsers for Claude and Codex, file discovery, and JSON and TOML encoding: taken as given functions, as said above.
