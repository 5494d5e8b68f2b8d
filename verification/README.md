# turnhive, modelled and proved in Dafny

turnhive is an agent-session server: a cluster of nodes owns sessions, a session runs one
agent turn at a time in a sandbox, and the turn's events reach clients over server-sent
events. This project models the parts of it that decide something, and proves what they
promise over all inputs, all interleavings and all runs. `dafny verify dfyconfig.toml` checks
the whole project.

- **The unified-diff engine** (`PatchSyntax`, `PatchHeader`, `PatchParse`, `PatchSections`, `PatchPhantom`,
  `PatchReading`, `PatchRoundTrip`, `PatchApply`, `PatchLaws`, `PatchRefine`, `PatchEndToEnd`).
  The parser and the applier are loops, each proved against a specification; printing and
  parsing undo each other exactly when no hunk holds a pair of lines that passes for a file
  header; applying the hunks of an edit script gives its new text exactly under two
  conditions; every result conserves lines, up to an exact count of repeated ones.
- **The session** (`Session`, `TurnProtocol`, `TurnInvariants`, `SandboxLedger`, `TurnLog`,
  `TurnCancel`, `TurnSolo`, `TurnStream`, `BackgroundExits`, `ToolResults`). `Session` has the
  session object, one method a critical section. `TurnProtocol` interleaves its goroutines: each has a program counter,
  each step is one critical section or one call to the outside, and calls may fail. The
  other modules prove invariants of every run: who owns the turn, where each sandbox and
  each background exit is, what the event log looks like, what a cancel achieves, when a
  sandbox may be detached; and what each goroutine achieves that nothing disturbs.
- **Event delivery** (`Hub`, `HubDelivery`, `HubMembership`, `Sse`, `SseRoundTrip`,
  `SseFrames`, `EventDelivery`). A bounded replay buffer and lossy subscribers agree with the
  unbounded log; the client's reader undoes the server's frames, also when the connection is cut
  at any byte, and reads any other frame as its fields say; the two are joined to what a client
  sees across a reconnect.
- **History** (`Context`, `TurnHistory`, `AgentLoop`, `HistoryFile`). Trimming and compaction,
  the write-ahead of a turn with crashes at every step and saves that may fail, the loop object,
  and the file the history is stored in.
- **Ownership** (`Ownership`, `OwnershipLaws`, `OwnershipRaces`, `OwnershipRouting`,
  `OwnershipSolo`, `Deletion`). Creation, routing, adoption, eviction, deletion, crashes and lease
  expiry of one session id in a cluster: who owns the session, exactly when the record stops naming
  its holder, where a request ends, and exactly when a deletion sticks.
- **Bounded text and stream assembly** (`Utf8`, `Truncate`, `StreamAssembly`, `StreamScript`; `Llm`
  has the tool call they share with the history).

Go strings are byte strings; a Dafny `char` stands for one byte. JSON is an abstract codec
(decoding undoes encoding, documents hold no raw line feed). Clocks, etcd, the object store,
the sandbox service and the model endpoint are parameters of steps: any of their calls may
succeed, fail, or (where it matters) take effect and be reported as failed.

Where a promise of the source's comments does not hold of its code, the code is modelled, and
a lemma gives the exact condition or the input that shows it:

- `agent/patch.go:89-93` speaks of the hunk's declared number of body lines; the counts are not
  used. What ends a hunk is a header pair that looks like a file header; see
  `PatchRoundTrip.ParseUndoesPrint`.
- `agent/patch.go:215` puts a hunk that only inserts one line early, behind which the line before
  it follows, although the hunk before may have put that out or removed it
  (`PatchEndToEnd.SeenExactly`),
  `agent/patch.go:226` lets a backward hunk repeat lines (`PatchLaws.ConservationExactly`),
  `agent/patch.go:223` can slice out of range (`PatchLaws.OutOfRangeExactly`), and
  `agent/patch.go:263` drops the line feed of a text that is one empty line
  (`PatchEndToEnd.RenderExactly`).
- `agent/truncate.go:156-157` (and line 170) says that a cut never breaks a character; after an invalid
  byte it can (`Truncate.CutSplitsCharacter`). The cut is two bytes ahead of the loop for each
  invalid byte read (`Truncate.CutDisplacement`), and so on a character boundary exactly when that
  many bytes are whole characters of the rest (`Truncate.CutOnBoundaryExactly`).
- `agent/truncate.go:97-98` says that a text within both limits is returned unchanged. The converse
  fails: a text beyond them that ends in the very notice that would replace its end comes back
  unchanged, too (`Truncate.UnchangedBeyondLimits`, `Truncate.UnchangedExactly`).
- `agent/context.go:83` says that the last user message is never dropped; that needs a history
  without two assistant messages in a row (`Context.LastUserKeptExactly`).
- `agent/history.go:17-18` says that only {user, assistant} pairs are ever stored. In the middle of
  every turn that is not so, by design of the write-ahead. After a turn whose last save took
  effect, pairs are stored exactly when what was left of its history after trimming was pairs and
  the turn did not condense it; so compaction alone breaks the promise, with every save in order
  (`AgentLoop.CompactionStoresNoPairs`), and so does a history that an earlier failure has left
  without an answer. If the last save was lost, pairs are stored exactly when the write-ahead was
  lost, too, and what was stored instead was pairs (`AgentLoop.StoresPairsExactly`,
  `AgentLoop.PairsKeptExactly`).
- `agent/loop.go:210-212` says that the history in memory is authoritative; a failed last save and
  a rebuilt sandbox refute that (`TurnHistory.LostReply`). What a rebuilt loop begins with ends
  with an answer, and is the history of before, exactly under the conditions of
  `AgentLoop.StoresAnswerExactly` and `AgentLoop.StoresReplyExactly`.
- `controller/session.go:299-302` says that late tool results do not reach the next turn. A report
  reaches it exactly when it was posted after the last turn had finished, found room, and was not
  replaced by a later one for its call (`ToolResults.ReachesNextTurnExactly`).
- `controller/turn.go:166-172` says that a cancelled turn closes with the cancelled status, and line
  208 answers so. It does exactly when the turn fails and the cancel has hit it before it reads
  the cause (`TurnCancel.StatusExactly`); a later cancel is accepted all the same
  (`TurnCancel.AcceptedButDone`).
- `controller/turn.go:124-130` says that the running turn's completion drains a queue that was put
  back; if it has completed by then it does not (`BackgroundExits.AnExitCanBeStranded`,
  `BackgroundExits.StrandedExactly`).
- `controller/controller.go:251-252` says that a deleted session cannot be adopted; an adoption
  that has overtaken the deletion of the spec brings it back (`Deletion.DeletionCanBeOvertaken`).
  With spec and memory gone it comes back in some run exactly when a thread is restoring it, or is
  about to claim it and no record that nobody will remove keeps it from that
  (`Deletion.BackExactly`).
- `registry/registry.go:189-193` calls the claim the guard against two nodes claiming one session;
  after two deletions that overlap two nodes can hold it (`OwnershipRaces.TwoOwners`). The record stops naming the
  holder exactly when a removal unregisters a session that is held (`OwnershipRaces.StripsExactly`).
- `controller/hub.go:16-18` says that no event is lost for clients that reconnect with their last
  sequence number: exactly while they are at most 2000 events behind (`HubDelivery.ResumeExactly`),
  and not with the number of a sync frame whose backlog they did not finish
  (`HubDelivery.ResumeFromSync`).

## Model

| member | source | states |
|---|---|---|
| PatchSyntax.HeaderRoundTrip | agent/patch.go:166-169 | A printed hunk header, with or without counts and heading, is recognised and gives back its old start, saturated as Atoi does |
| PatchHeader.HeaderExactly | agent/patch.go:166-169 | A line is taken for a hunk header if and only if it is @@, blanks, - and digits with an optional comma and digits, blanks, + and the same, blanks and @@, and the start used is the first number; for every line |
| PatchSyntax.PathRoundTrip | agent/patch.go:41-54 | Reading back a printed a/ or b/ path gives the name exactly when the name has no tab and no white space at its end |
| PatchSyntax.ParseDevNull | agent/patch.go:41-54 | The absent side of a section is read as /dev/null, with any timestamp behind a tab or without |
| PatchSyntax.StampedPath | agent/patch.go:41-54 | A clean name is read back from its printed path with any timestamp behind a tab |
| PatchSyntax.BareRoundTrip | agent/patch.go:41-54 | A path without a/ or b/ in front is read as itself, and no other path is: if and only if, for every text |
| PatchSyntax.StampedBarePath | agent/patch.go:41-54 | Such a path is read back with white space in front and a timestamp behind |
| PatchParse.CountHunkBodyLines | agent/patch.go:129-138 | The loop stops at the next hunk header, safe file header or end, and never fails |
| PatchParse.CollectHunks | agent/patch.go:86-111 | The nested loops take all lines of one file section: up to a safe file header, or any file header before the first hunk |
| PatchParse.RenderCollected | agent/patch.go:112-118 | Trailing blank lines go, and a non-empty rest ends in a line feed |
| PatchParse.ParseUnifiedDiff | agent/patch.go:58-122 | The parser computes the list of sections that the recursive reading of the lines defines, deletions skipped |
| PatchRoundTrip.ParseUndoesPrint | agent/patch.go:58-164 | For any list of well-formed sections, with prefixed or bare paths, printed with or without a final line feed, parsing the patch returns the kept sections in order, if and only if no kept section holds a removed `-- ` line next to an added `++ ` line that is followed by a removed `-- ` line, by the end of its hunk, or, with no line feed there, by the end of the patch |
| PatchApply.RunHunkLines | agent/patch.go:193-253 | The loop over the hunk lines computes the run of the classified lines: two cursors, strict matching, every error, and the slice that can go out of range |
| PatchApply.ApplyHunksToText | agent/patch.go:177-267 | The applier splits, runs, appends the rest and restores the line feed as specified |
| PatchLaws.LengthLaw | agent/patch.go:193-258 | Result lines plus '-' lines equal old lines plus '+' lines plus the lines that backward hunks repeat |
| PatchLaws.Conservation | agent/patch.go:193-258 | Without repetition a successful run is an edit: its kept and deleted lines are the old file, its kept and added lines the result, its additions and deletions the '+' and '-' lines, all in order |
| PatchLaws.ConservationExactly | agent/patch.go:221-226 | Such an edit exists if and only if no hunk goes backwards inside the file |
| PatchLaws.OutOfRangeExactly | agent/patch.go:221-224 | The slice is out of range if and only if two reached headers, with only insertions between, point past the end and then further |
| PatchLaws.NewFile | agent/patch.go:231-253 | A new file fails exactly on a '-' line or a malformed header, and otherwise consists of the '+' and ' ' lines |
| PatchLaws.NewText | agent/patch.go:177-267 | Applied as a new file, a hunk text gives the text of its '+' and ' ' lines without a final line feed, whatever stands in its place, if and only if it has no '-' line and no malformed header |
| PatchLaws.StrayLine | agent/patch.go:229-252 | A line that begins with none of the marks, wherever it stands in whatever hunk text, may be left out: the result, or the error, is the same |
| PatchLaws.FaultExactly | agent/patch.go:200-258 | Which error is reported: if and only if it is that of the first line at fault where the lines before it have led; for any hunk text |
| PatchRefine.RunPieces | agent/patch.go:200-258 | On the hunks of any edit script, touching ones too, the two cursors yield the script's lines with each pure insertion one line early, and the line it jumps back over again if that is out already |
| PatchEndToEnd.SeenExactly | agent/patch.go:210-226 | The applier yields no fewer lines than the script's new ones, and exactly these if and only if each hunk that only inserts, and not at the head of the file, repeats the old line before it, which is not one of the hunk before |
| PatchEndToEnd.RenderExactly | agent/patch.go:260-266 | The rendered text is the new lines' text if and only if the lines agree and they are not one empty line with a line feed, or there is no new line and at most an empty one is rendered |
| PatchEndToEnd.ApplyGivesNewText | agent/patch.go:177-267 | Applying the printed script, whatever its hunks, to its old text gives its new text, with the old line feed at the end, if and only if both conditions hold, or the new text is empty and the applier is left with one empty line |
| PatchEndToEnd.PatchCarriesEdits | agent/tools_sandbox.go:442-467 | For any number of changed and new files, the printed patch is read as their sections if and only if none holds a phantom file header, and then each file gets its new text if and only if it is new or the applier agrees with its script |
| PatchEndToEnd.CreateFile | agent/patch.go:177-267 | A file created from its own diff has its lines and never a final line feed |
| Session.SessionObject.constructor | controller/controller.go:117-119 | A new session is open, idle, without sandbox, with nothing pending |
| Session.SessionObject.Touch | controller/session.go:80-84 | Only the time of last activity changes |
| Session.SessionObject.LiveSandbox | controller/session.go:90-97 | A sandbox is reported exactly when one is attached and the session is open |
| Session.SessionObject.SetSandbox | controller/session.go:103-112 | Attaches and reports true, or, once closed, changes nothing and reports false |
| Session.SessionObject.TakeSandbox | controller/session.go:116-123 | Detaches and returns whatever was attached |
| Session.SessionObject.TakeSandboxIfIdle | controller/session.go:131-141 | Detaches only without a running turn and with at least d of inactivity |
| Session.SessionObject.CloseSession | controller/session.go:147-155 | Closes for good and hands out the sandbox |
| Session.SessionObject.TakeIfCold | controller/session.go:164-175 | Closes and detaches in one step, or refuses and changes nothing |
| Session.SessionObject.RecordBackgroundExit | controller/session.go:250-257 | Queues at the end, unless closed |
| Session.SessionObject.TakeBackgroundExits | controller/session.go:261-270 | Empties the queue and returns it in order, nothing once closed |
| Session.SessionObject.RequeueBackgroundExits | controller/session.go:275-282 | Puts a batch back ahead of the queue, unless closed |
| Session.SessionObject.StartTurn | controller/session.go:286-297 | Starts exactly when no turn runs, closed or not, and clears the cancel mark |
| Session.SessionObject.FinishTurn | controller/session.go:304-314 | Clears the turn and the pending results and closes that turn's done channel |
| Session.SessionObject.CancelTurn | controller/session.go:334-345 | Marks the running turn and returns it, or does nothing |
| Session.SessionObject.AddToolResult | controller/session.go:372-388 | Sends to the waiter's empty channel, keeps, overwrites or refuses at 256; every case of the new state |
| Session.SessionObject.BeginWait | controller/session.go:393-406 | Takes a pending result or registers a fresh channel |
| Session.SessionObject.AbandonWait | controller/session.go:411-414 | Unregisters the call |
| TurnInvariants.ActTurn | controller/session.go:286-314 | Of all steps of all goroutines, only a start with no turn running gives a turn an owner, and only its finish takes it away |
| TurnInvariants.OneTurnMove | controller/turn.go:85-122 | Every step keeps: one thread at most owns a turn, and it is the session's |
| SandboxLedger.LedgerOfEveryRun | controller/sandbox.go:97-136 | In every reachable state each allocated sandbox is attached, in the hand of one thread, or released, and only one of these; none is released twice |
| SandboxLedger.RenewalOfEveryRun | controller/sandbox.go:122-133 | The attached sandbox's lease is renewed, a released one's is not |
| SandboxLedger.NothingLeaks | controller/controller.go:230-260 | Once the session is closed, or its creation rolled back, and no thread has a sandbox in hand, every sandbox ever allocated has been released |
| SandboxLedger.NeverOverwrites | controller/session.go:99-112 | Whoever is about to attach a sandbox finds none attached, and is the only builder |
| SandboxLedger.ClosedHasNone | controller/session.go:99-112 | In every run a closed session has no sandbox |
| SandboxLedger.Always | controller/sweeper.go:40-117 | The invariant behind the ledger holds in every run of messages, drains, cancels, deletes, sweeps and creation |
| TurnLog.TurnsAlternate | controller/turn.go:85-122 | Over every interleaving turns alternate in the log and do not overlap, each is announced and finished at most once and exactly once when its goroutine is through, and a cancelled status means that CancelTurn hit that turn |
| TurnLog.CancelMeansFinished | controller/turn.go:173-209 | When the cancel endpoint reports success, that turn has published its terminal event and is not running any more |
| TurnCancel.StatusExactly | controller/hub.go:152-172 | Over every interleaving, a turn's terminal event says done if and only if its loop came to the end, cancelled if and only if it failed and a cancel had hit it by the time it read the cause, and error if and only if it failed and none had |
| TurnCancel.AcceptedExactly | controller/turn.go:166-208 | When the cancel endpoint reports success, the turn's one terminal event says cancelled if and only if that condition holds |
| TurnCancel.AcceptedButDone | controller/turn.go:189-208 | A run in which an accepted cancel ends as done |
| TurnLog.DetachOnlyWhenIdle | controller/session.go:125-175 | An attached sandbox is detached only by a close, by the rollback of its creation, or by a sweep at least its bound after every event published; a running turn keeps its sandbox until the session is closed |
| TurnSolo.TurnByItself | controller/turn.go:85-122 | From any session state, a turn that nothing disturbs announces itself, gets its sandbox or not, ends with one terminal event of the right status and leaves the session idle, its done channel closed, and its thread about to drain |
| TurnSolo.Supply | controller/sandbox.go:97-136 | A live sandbox is used as it is; otherwise one is allocated, built and attached, and one that cannot be built, or finds the session closed, is released and its renewal stopped |
| TurnSolo.DrainByItself | controller/turn.go:131-139 | The queued exits start a turn that reports all of them in order; a busy session keeps its queue as it was; a closed one or an empty queue starts nothing |
| TurnSolo.ExitByItself | controller/session.go:250-257 | An exit joins the queue of an open session at its end and is dropped by a closed one |
| TurnSolo.DeleteByItself | controller/controller.go:230-260 | A deletion closes the session and releases its sandbox, whether a turn runs or not |
| TurnSolo.ReapByItself | controller/sweeper.go:96-117 | The idle sweep releases the sandbox of a session that is idle for its bound, and does nothing else |
| TurnSolo.ReapedInTime | controller/sweeper.go:96-117 | An idle session to which nothing happens loses its sandbox to a sweep if and only if the bound has passed since its last activity |
| TurnSolo.EvictByItself | controller/sweeper.go:40-73 | The cold sweep closes an open session that is idle for its bound and releases its sandbox, and does nothing else |
| TurnSolo.CancelByItself | controller/turn.go:173-209 | A cancel marks the running turn, waits for its end, and is given up when its caller goes; without a turn it does nothing |
| TurnSolo.CreationByItself | controller/controller.go:117-152 | A session is published with its sandbox if one could be had and the session registered; otherwise no sandbox is attached or left unreleased |
| TurnStream.SyncShowsOpenTurn | controller/hub.go:62-67 | In every reachable state the hub's current turn is the one announced and not finished, and its sequence number counts the events |
| BackgroundExits.ExitsConserved | controller/turn.go:131-139 | Every background exit is in exactly one place, once: queued, carried, reported in one accepted turn, or dropped, and dropped only after a close |
| BackgroundExits.RecordAllAppends | controller/session.go:250-257 | Arrivals queue in their order |
| BackgroundExits.RequeueUndoesTake | controller/session.go:261-282 | Taking the queue and putting it back leaves no trace, whatever arrived in between |
| BackgroundExits.StrandedExactly | controller/turn.go:136-138 | A step strands an exit in an open idle session if and only if it is a requeue after the turn has finished and drained |
| BackgroundExits.IdleMeansDrained | controller/turn.go:96-101 | Without such a late requeue an open idle session with no drain under way has an empty queue, in every run |
| BackgroundExits.AnExitCanBeStranded | controller/turn.go:131-139 | A run ends with every thread done, the session open and idle, and an exit in its queue |
| ToolResults.Rendezvous | controller/session.go:362-416 | Over every run: no call both pending and waited for, at most 256 pending, a registered channel is empty so that the send under the mutex cannot block, no report received twice, and only reports for that call posted since the last finished turn |
| ToolResults.PostingEarlyOrLate | controller/session.go:372-407 | Posting before the wait or during it comes to the same result and the same session |
| ToolResults.ReachesNextTurnExactly | controller/session.go:299-314 | In every run, with any events before and after it, a report is received by the next turn's first wait for its call if and only if no turn has finished since it was posted, it found a place in the buffer, and no later report for its call followed |
| ToolResults.PostedBetweenTurns | controller/session.go:372-385 | In every run a result posted while no turn runs is received by the next turn if and only if the buffer has room for it |
| ToolResults.AbandonedWait | controller/session.go:393-416 | A wait that is given up leaves no trace in the session, and a report handed to it before is received by nobody |
| ToolResults.LoopIsSequential | controller/session.go:286-314 | In every run a turn begins only when none runs, with its own number; the loop waits only in a turn, for one call at a time over a fresh channel; a turn ends only when it does not wait; and an event that cannot happen changes nothing |
| Hub.EventHub.constructor | controller/hub.go:39-41 | A new hub has published nothing and has no subscriber |
| Hub.EventHub.Broadcast | controller/hub.go:68-76 | Every subscriber with room gets the event once, every full one is closed and dropped, whatever the order |
| Hub.EventHub.Publish | controller/hub.go:46-78 | The whole new state: number, bounded buffer, current turn, channels |
| Hub.EventHub.Replay | controller/hub.go:83-87 | The backlog is the buffered events after lastSeq |
| Hub.EventHub.Subscribe | controller/hub.go:80-92 | Registers a fresh channel and returns the backlog, the current turn and the latest number of the same moment |
| Hub.EventHub.Unsubscribe | controller/hub.go:95-102 | Closes the channel unless it is closed already |
| Hub.EventHub.CloseAll | controller/hub.go:108-115 | Closes every subscriber and leaves buffer and numbers alone |
| HubDelivery.BufferIsTail | controller/hub.go:52-61 | In every run the buffer is the last 2000 events of the log, numbered from 1 without gaps |
| HubDelivery.GapFree | controller/hub.go:68-92 | In every run backlog, received and queued events of a subscriber are one stretch of the log, which reaches its end while the subscriber is registered |
| HubDelivery.LastReceivedIsPosition | controller/hub.go:54-55 | The number of the last event received is its position in the log |
| HubDelivery.ResumeExactly | controller/hub.go:16-18 | Reconnecting with that number continues the log without gap or repetition, exactly when at most 2000 events were missed |
| HubDelivery.ResumeFromSync | controller/controller.go:185-206 | Reconnecting with a sync frame's number skips exactly the backlog not yet consumed |
| HubMembership.SubscribedExactly | controller/hub.go:68-115 | Over every run, a step leaves a channel subscribed if and only if it was and the step neither closes it nor finds it full, or the step adds it |
| HubMembership.StaysExactly | controller/hub.go:68-115 | After any further steps a subscriber is still subscribed if and only if none of them has ended it; it does not come back |
| HubMembership.OpenExactly | controller/hub.go:95-115 | In every run a channel is open if and only if it is subscribed |
| HubMembership.TakesAll | controller/hub.go:68-92 | A subscriber that empties its channel has consumed its stretch of the log: to the end if it is subscribed, and up to its drop otherwise |
| Sse.ReadStream | stream.go:195-269 | The client's loop computes the specified reading of any byte stream that ends or fails |
| SseRoundTrip.ReadUndoesWrite | controller/sse.go:19-56 | Reading the frames the server writes delivers exactly their events, in order, sync with the number in its payload |
| SseRoundTrip.CutStream | stream.go:240-257 | Cut after any number of bytes, the client delivers exactly the events whose payload came whole, and reports malformed data exactly when the cut is inside a payload |
| SseRoundTrip.FailStream | stream.go:253-256 | When reading fails after any number of bytes, the frames that were complete are delivered and the failure is reported |
| SseFrames.AnyFrame | stream.go:195-300 | Whatever fields a frame has, in any order and number, with or without a space behind the colon, comments and unknown fields between them, any carriage returns at the line ends: its last name, its data lines joined and its last number, or the payload's, are delivered, nothing without data, and an error if the data does not decode |
| SseFrames.LastFrame | stream.go:238-256 | A stream that ends in a frame, its last line unfinished, delivers that as if it were over; a read error loses it |
| SseFrames.IdExactly | stream.go:284-290 | An id is a number if and only if it is digits with at most one sign in front, of a value that fits into 64 bits |
| EventDelivery.ClientSeesLog | controller/controller.go:163-226 | Whatever cuts a connection, an end of the stream or a read error after any byte, the client has delivered the sync event and a prefix of the stretch of the log it asked for, each event with its own number |
| EventDelivery.ReconnectContinues | controller/controller.go:179-186 | Coming back with the last delivered number, at most 2000 events late, loses nothing and repeats nothing, however either connection stops |
| Context.EstimateMessageTokens | agent/context.go:58-67 | The nested loops sum the estimates of contents, names and arguments |
| Context.EstimateCountsChars | agent/context.go:46-67 | Four times the estimate is at least all characters of contents, call names and arguments, and at most three more for each text |
| Context.EstimateShrinks | agent/context.go:58-67 | Dropping messages from the front never raises the estimate |
| Context.TruncateToFit | agent/context.go:84-109 | The loop drops the specified number of messages and reports whether it dropped any |
| Context.LongestThatFits | agent/context.go:81-109 | On a well-formed history the rest begins at a user message and is the longest such suffix within the budget, or the first of at most two messages |
| Context.NothingLongerFits | agent/context.go:94-108 | No longer suffix fits, wherever it begins |
| Context.LastUserKeptExactly | agent/context.go:99-103 | The last user message survives every budget if and only if at most one message follows it or the dropping cannot reach it |
| Context.LastUserKept | agent/context.go:81-83 | In a well-formed history it always survives |
| Context.LastUserLost | agent/context.go:104-107 | Two assistant messages after it, and it is dropped |
| Context.CompactCutoff | agent/context.go:171-182 | The loop finds where the last turns to keep begin |
| Context.CompactKeepsRecent | agent/context.go:151-165 | Compaction happens exactly with more than two user messages; it leaves one user message, whose text is the summary of exactly the messages before the cut between its two marks, and, verbatim, everything from the second-last user message on |
| Context.CompactWellFormed | agent/context.go:151-165 | Compaction keeps the grammar, the last message and that it is answered |
| Context.TruncateText | agent/context.go:230-239 | Short texts unchanged, longer ones cut at the budget, never out of range |
| TurnHistory.GrammarKept | agent/loop.go:159-394 | With any failing saves and loads, crashes, adoptions and rebuilds, the history in memory and the stored one start with a user message and have no two assistant messages in a row |
| TurnHistory.SavesKeepAnswers | agent/loop.go:204-277 | While saves succeed, an idle session's history is the stored one and ends with an answer, in every run |
| TurnHistory.CrashRecovery | agent/loop.go:217-277 | Wherever a node crashes in a turn, adoption yields an answered history: the old one, perhaps trimmed; then that with the user's message and the marker; then what the turn left; recovering again changes nothing |
| TurnHistory.LostReply | agent/loop.go:384-394 | A failed last save and a rebuilt sandbox leave an idle loop with an unanswered message |
| TurnHistory.LoadsExactly | agent/loop.go:318-333 | A load that fails, for a turn, a rebuilt sandbox or an adoption, changes nothing; one that succeeds makes the stored history the one in memory |
| AgentLoop.Agent.LoadHistory | agent/loop.go:318-333 | Loads once, and stays unloaded when the load fails |
| AgentLoop.Agent.FailTurn | agent/loop.go:384-394 | The partial reply is appended and saved if the save succeeds |
| AgentLoop.Agent.SealInterruptedTurn | agent/loop.go:366-378 | Appends the marker exactly when the history ends with a user message |
| AgentLoop.Agent.RunTurn | agent/loop.go:159-307 | The method leaves in memory and in the store what the turn's events leave there, for every way its completions and saves turn out; a second turn is refused and changes nothing |
| AgentLoop.Agent.Converse | agent/loop.go:236-307 | The loop of at most 199 steps ends as its first plain reply, its first error, or its last step's text says |
| AgentLoop.Agent.WriteAhead | agent/loop.go:200-224 | Trim, save if trimmed, append, save |
| AgentLoop.ReplyIsLeft | agent/loop.go:258-277 | A turn that calls tools any number of times and then replies leaves, after its trimmed history and the user's message, one assistant message with exactly that reply, and is then perhaps condensed |
| AgentLoop.PartialReplyIsLeft | agent/loop.go:384-394 | One whose completion breaks off leaves exactly what came of it |
| AgentLoop.LastTextIsLeft | agent/loop.go:300-307 | One that calls tools in all its steps leaves the text of the last one |
| AgentLoop.TurnIsRun | agent/loop.go:159-307 | A turn of the loop is a run of the history's events |
| AgentLoop.TurnAddsOnePair | agent/loop.go:258-277 | With successful saves a turn adds the user's message and one assistant message, then perhaps compacts; tool exchanges are not in the history |
| AgentLoop.StoresPairsExactly | agent/loop.go:200-277 | For every turn, whatever it begins with in memory and in the store and whatever saves fail, the stored history is {user, assistant} pairs afterwards if and only if: with the last save in effect, the trimmed history was pairs and was not condensed; without it, the write-ahead was lost, too, and what was stored instead was pairs |
| AgentLoop.PairsKeptExactly | agent/history.go:17-18 | For a turn that begins with pairs in memory: if and only if, with the last save in effect, it does not condense; without it, the write-ahead was lost and the trimmed history was saved or the store held pairs before |
| AgentLoop.TurnsStorePairs | agent/history.go:17-18 | From stored pairs, any number of turns that store their end and do not overflow the window leave stored pairs |
| AgentLoop.CompactionStoresNoPairs | agent/context.go:151-165 | A third exchange that overflows the window stores a summary and two exchanges, with every save in order |
| AgentLoop.StoresAnswerExactly | agent/loop.go:200-277 | For every turn on a well-formed history, a loop rebuilt afterwards begins with a history that ends with an answer if and only if the last save took effect, or the write-ahead did not and what was stored instead ends with one |
| AgentLoop.StoresReplyExactly | agent/loop.go:204-277 | It begins with the history the turn left in memory if and only if the last save took effect, or neither that nor the write-ahead did and what was stored instead is the same |
| HistoryFile.MarshalMessage | llm/llm.go:90-115 | The loops build the specified wire form |
| HistoryFile.UnmarshalMessage | llm/llm.go:121-163 | The loops read it back, for plain text, parts and null |
| HistoryFile.WireRoundTrip | llm/llm.go:90-163 | Unmarshalling undoes marshalling for every mix of content, images and tool calls |
| HistoryFile.WireShape | llm/llm.go:90-115 | Plain content without images; with images, parts: the text first if there is any, then each image in order; every call a function, in order |
| HistoryFile.ContentForms | llm/llm.go:121-163 | Null content reads as the empty text with the same tool calls; a text as one part of text; parts of other kinds do not count; any other form is refused |
| HistoryFile.ParseHistory | agent/history.go:62-88 | The reading loop yields the messages of the lines that are not blank, too long or malformed |
| HistoryFile.Save | agent/history.go:94-105 | One document and a line feed for each message |
| HistoryFile.HistoryRoundTrip | agent/history.go:62-105 | Parsing what was saved gives the messages whose line is within the cap, in order |
| HistoryFile.FittingAllExactly | agent/history.go:70-72 | These are all messages if and only if every line is within the cap |
| HistoryFile.LinesAreIndependent | agent/history.go:62-88 | Lines contribute independently of what follows them |
| HistoryFile.CorruptLine | agent/history.go:56-61 | A corrupt, blank or overlong line removes nothing but itself |
| OwnershipLaws.SingleOwner | controller/adopt.go:135-176 | Over all runs of creation, routing, adoption, eviction, deletion, crashes and lease expiry in which removals do not overlap, a running node that holds the session, in memory or in hand, is the one the record names, so no two do |
| OwnershipLaws.AdoptionAlone | controller/adopt.go:137-149 | In such a run an adoption never replaces a session in memory, is the only one on its node, and shares what it claimed with nobody |
| OwnershipLaws.ForwardedOnce | controller/routing.go:52-57 | A request is forwarded at most once |
| OwnershipRouting.RequestEnds | controller/routing.go:29-113 | From any cluster, a fresh request whose calls succeed and which nothing disturbs ends: here if the session is here; behind an adoption under way here; with the owner in one hop; with an adoption of its own if there is no record, a spec, and it may; and otherwise as not found |
| OwnershipRouting.ReachesOwner | controller/routing.go:60-113 | In every run a request on another node reaches the node that has the session and is named by the record, in one hop, unless it finds an adoption under way on its own node |
| OwnershipRouting.NotFoundExactly | controller/routing.go:29-113 | A fresh request is told that there is no session if and only if the session is neither here nor being adopted here, and its owner runs and neither has nor adopts it, or there is no owner and no way to adopt it |
| OwnershipRouting.LostClaimEnds | controller/routing.go:78-113 | A request that loses its claim looks the owner up again and ends with it, or as not found if there is none |
| OwnershipSolo.CreateByItself | controller/controller.go:128-153 | For every way its calls turn out, a creation leaves spec, record and memory, or only what could not be taken back |
| OwnershipSolo.ClaimEnds | controller/adopt.go:148-159 | An adoption that finds no spec, loses the claim or fails before it has one changes nothing, but for a claim that took effect without a confirmation |
| OwnershipSolo.ClaimHolds | controller/adopt.go:153-175 | An adoption that has the claim serves the session if it can be restored, and gives the record back otherwise |
| OwnershipSolo.JoinByItself | controller/adopt.go:137-149 | A request that has joined an adoption is answered by what that leaves |
| OwnershipSolo.WaitByItself | controller/routing.go:31-58 | A request that has found an adoption under way goes on when that is over, and seeks no further if it has been forwarded |
| OwnershipSolo.LookupFails | controller/routing.go:60-92 | A failed lookup ends the request as a bad gateway, one after a lost claim as not found unless the session has come here |
| OwnershipSolo.EvictByItself | controller/sweeper.go:40-73 | An eviction takes the session out of memory and its record away, and keeps the spec |
| OwnershipSolo.DeleteByItself | controller/controller.go:230-258 | A deletion takes the spec away as well, whatever becomes of the record |
| OwnershipLaws.ActKind | registry/registry.go:168-204 | Of all steps, only a put on an absent record and a removal by its holder change the record, and only its holder changes the memory |
| OwnershipLaws.Always | controller/sweeper.go:40-73 | In every run, overlapping removals or not, memory is on running nodes, the creator is alone until it answers, there is one adoption at a time on a node, and a forwarded request seeks no further |
| OwnershipRaces.StripsExactly | registry/registry.go:182-187 | However removals overlap, a step makes the record stop naming whoever has the session in memory or has claimed it if and only if it is a deletion or an eviction that removes the record of a session that is held |
| OwnershipRaces.HolderIsRecorded | controller/adopt.go:152-176 | In every run without such a step the record names the one node that has or has claimed the session |
| OwnershipRaces.OneAtATimeStripsNot | controller/controller.go:235-250 | Runs in which removals do not overlap have no such step |
| OwnershipRaces.StripSplits | controller/adopt.go:135-176 | After such a step, while the spec exists, any other idle node can come to hold the session as well |
| OwnershipRaces.TwoOwners | controller/controller.go:230-256 | A run with two overlapping deletions that ends with two nodes holding the session |
| Deletion.BackExactly | controller/controller.go:246-256 | Once spec and memory are gone, some run brings the session back if and only if a thread is restoring it, or one about to claim it is not on the node that a record names which nobody will remove |
| Deletion.BackWithoutRecord | controller/controller.go:246-256 | With the record gone too, if and only if an adoption has read the spec |
| Deletion.GoneForGood | controller/controller.go:230-258 | Otherwise no node ever has the session again and no request is served locally |
| Deletion.DeletionCanBeOvertaken | controller/controller.go:246-256 | A run in which the deletion finishes and another node serves the session |
| Utf8.ValidExactly | agent/truncate.go:161-169 | The texts Go's range loop reads without an invalid byte are exactly the encodings of sequences of Unicode scalar values |
| Truncate.CutToBytes | agent/truncate.go:158-172 | The loop computes the specified count, and says when the slice would be out of range |
| Truncate.CutSafe | agent/truncate.go:158-172 | The count stays within the budget, so a text at least that long is cut in range |
| Truncate.CutLongest | agent/truncate.go:156-172 | On valid UTF-8 the cut is the longest prefix of whole characters within the budget |
| Truncate.CutDisplacement | agent/truncate.go:162-169 | The count is the loop's position and two for each invalid byte read, for every text and budget |
| Truncate.CutOnBoundaryExactly | agent/truncate.go:156-171 | A cut is between characters if and only if two bytes for each invalid byte read are whole characters of what the loop has not read |
| Truncate.CutIsPositionExactly | agent/truncate.go:163-171 | The count equals the loop's position if and only if every byte read was valid |
| Truncate.CutSplitsCharacter | agent/truncate.go:170-171 | After an invalid byte the cut splits a valid character |
| Truncate.CutOutOfRange | agent/truncate.go:171-171 | Taken alone, with a budget beyond the text, an invalid byte makes the slice go out of range; both callers pass a text longer than the budget, for which `Truncate.CutSafe` holds |
| Truncate.KeepHead | agent/truncate.go:122-146 | The loop keeps as many whole lines as fit, or a cut of the first, and counts their bytes with line feeds |
| Truncate.Truncate | agent/truncate.go:103-152 | Unchanged within the limits; beyond them the preview, the notice with both counts, and the hint |
| Truncate.OverLimitsExactly | agent/truncate.go:68-80 | A text is beyond the limits if and only if its line feeds are at least the line limit or its length exceeds the byte limit |
| Truncate.UnchangedExactly | agent/truncate.go:119-152 | A text beyond the limits comes back unchanged if and only if what follows its preview is the notice that counts that: its line feeds, four and the hint's, as the lines and its length as the bytes |
| Truncate.UnchangedBeyondLimits | agent/truncate.go:149-152 | Such a text: one line "a", and four lines of 38 bytes that say so |
| Truncate.PreviewLaws | agent/truncate.go:122-152 | For any limits, negative ones too, the preview is a prefix of the text within them |
| Truncate.Accounting | agent/truncate.go:149-154 | Kept and removed lines and bytes add up, no longer run of whole lines would fit, and only the empty text under a line limit of zero is its own preview |
| StreamAssembly.ConsumeStream | llm/llm.go:388-498 | The loop returns the assembled message, or the error the stream calls for; a message only after [DONE] or a finish reason |
| StreamAssembly.TakeFragments | llm/llm.go:444-461 | The accumulators hold, for each index at least zero, what its own fragments amount to |
| StreamAssembly.Collect | llm/llm.go:476-498 | The calls in increasing order of index, empty arguments as {} |
| StreamAssembly.ContentIsDeltas | llm/llm.go:433-436 | The content is the concatenation of the emitted deltas |
| StreamAssembly.CallsByIndex | llm/llm.go:444-498 | One call for each non-negative index, in strictly increasing order, put together from its own fragments, arguments never empty |
| StreamAssembly.InterleavingIsFree | llm/llm.go:444-461 | Streams that keep each call's own order of fragments give the same calls |
| StreamAssembly.NeighboursCommute | llm/llm.go:444-461 | Neighbouring fragments of different calls may change places |
| StreamAssembly.NothingAfterDone | llm/llm.go:410-413 | What follows [DONE] changes nothing |
| StreamScript.ClosedStream | llm/llm.go:388-498 | A stream of data lines, blanks and comments, whatever their line ends, that is closed by [DONE] is read as the message that was sent: all text deltas in order, reasoning apart, the calls, the last usage; whatever follows |
| StreamScript.OpenStream | llm/llm.go:462-475 | One that just ends is that message if some choice gave a finish reason, and truncated if none did; one that breaks off is a read error in any case |
| StreamScript.BadChunk | llm/llm.go:414-428 | A chunk that reports an error, or data that is no chunk, ends the stream with that error, whatever has come before |
| StreamScript.WholeCall | llm/llm.go:444-498 | A call that comes in one fragment is that call |
| StreamScript.CutFragment | llm/llm.go:444-461 | Where a fragment is cut makes no difference to the calls |

## Left out

- HTTP handlers' JSON decoding and status codes, the reverse proxy, the SDK's request methods, configuration, and the wording of errors and logs: plumbing.
- The shell, read, write, media and persist tools, skills, MCP servers and their name clashes: remote calls and library code. Running a tool is an oracle that says how a completion ends.
- Persisted and user files and the mutex that orders attaching them against detaching a sandbox (`filesMu`): not part of the session model.
- Liveness: a drain runs eventually, a cancel returns, a lease expires. Safety and the termination of loops only.
- IsOverflow's threshold in floating point: whether a turn overflows is an input.
- generateSummary's text: compaction is proved for every summary of the older messages.
- TruncateSpill: the spilled file is a remote call; what is returned is `Truncate`.
- Keepalive loss with re-registration (`ReregisterSessions`): its unconditional put is outside the assumption, stated in `Ownership.Next`, that a lease expires only after its node has crashed.
- OwnershipLaws.SingleOwner: is for runs in which no deletion or eviction begins while another one is between taking the session out of use and removing its record (`OneAtATime`), because the registry's delete is unconditional; `OwnershipRaces` has the run that refutes it otherwise and the exact condition. No request names an id before its creation has answered.
- OwnershipLaws.ForwardedOnce: a node's restart under the same name counts as another node.
- HubDelivery.BufferIsTail: the sequence number is unbounded; the wrap-around of int64 after 2^63 events is not modelled.
- Hub.EventHub.Publish: a payload that does not marshal publishes nothing; every payload here marshals.
- PatchSyntax.PathRoundTrip: strings.TrimSpace also removes Unicode white space outside ASCII; only the ASCII characters are modelled, here and in `HistoryFile.ParseHistory`.
- SseRoundTrip.ReadUndoesWrite: the payloads are documents without line ends whose decoding succeeds, and no strict prefix of a payload decodes; other payloads are not written by the server.
- Sse.ReadStream: closing the stream from another goroutine, and a consumer that stops draining, are not modelled.
- TurnLog.TurnsAlternate: `Delta` stands for reasoning deltas, too; cancelling a context is a step at which the turn may fail, at any time.
- TurnHistory.CrashRecovery: the stored object is replaced as a whole or not at all, as the object store promises; the file's own losses are `HistoryFile.HistoryRoundTrip`.
- HistoryFile.HistoryRoundTrip: asks for valid UTF-8, because Go's JSON encoder replaces invalid bytes; a reader error of an in-memory buffer cannot occur.
- StreamAssembly.ConsumeStream: retries after status 429, the plain-JSON answer and the context's error text are not modelled; numbers are unbounded.
- Truncate.Truncate: the options are given as their resolved values.
- Session.SessionObject.FinishTurn: the done channel is the set of turns whose channel has been closed; the turn's cancel function is set and cleared together with its id and is part of it.
