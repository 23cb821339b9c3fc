# A verified model of the scheduler's hard core

The scheduler stores the events of agent executions, serves them in bounded pages
and live streams, keeps a log of questions and their answers, and hosts a wiki that
projects share by tag. Workers run one agent session each and talk to the scheduler
through a polling protocol. This project models the parts of that system whose
correctness is not visible from reading one function, and proves what they are for.

- **Event payload budget.** `PayloadTree`, `SharedCeiling` and `PayloadBudget` model
  the rewrite that shortens a JSON value until its serialized size fits 64 KiB. The
  result is characterised completely: the served value is the original with every
  shortenable leaf cut to one common ceiling, the ceiling is tight, the loop decides in
  at most two passes, and a value is returned over budget exactly when emptying
  everything would not have been enough.
- **Resolution markers.** `Json`, `JsonParser`, `JsonReader`, `Markers` and `LikePattern`
  model string escaping (section 7 of RFC 8259), UTF-8 widths (section 3 of RFC 3629),
  the closed form for the length of a serialized marker, the truncator, the reader that
  undoes the writer, and the `LIKE` prefilter. `Payloads` adds the escalations and
  dismissals the scheduler stores, and states for any payload which of its parts the
  readers answer to.
- **Marker backfill.** `BackfillScan` models the two-phase scan and proves that it finds
  every unmarked answer source; `BackfillAborts` proves when it gives up; `Backfill`
  models the bounded reads and inserts and proves the fixed point: after a successful
  backfill the audit finds nothing.
- **Worker session.** `Worker` is the session loop as a step function over arbitrary
  interleavings of executor events, poll replies and timers, with every request, signal
  and command recorded. `WorkerAcks`, `WorkerPolls`, `WorkerCommands`,
  `WorkerEscalation`, `WorkerLifecycle` and `WorkerMessages` prove properties of whole
  runs, read off what was recorded; `WorkerSession` is the loop as the worker runs it, updating
  its variables in place, proved to take exactly those steps and to keep those
  properties.
- **Cursored reads.** `EventLog`, `Cursors`, `Decisions`, `EventPages`, `TerminalEvents`
  and `EventStream` model reads of an ordered log through cursors, over logs that grow
  between reads.
- **Executor buffer.** `AssistantBuffer` models the Claude executor's buffer of
  assistant blocks against a reference that decides each block's fate from the message
  stream alone; `AssistantAnnouncements` does the same for everything not buffered.
- **Wiki.** `Utf8` and `WikiEdits` model body edits down to byte matches; `WikiAccess`
  proves that page access and search scope agree.

Loops and objects the program updates in place are methods and classes here, each
proved against a specification function; the properties are lemmas about those
functions, and the session and the executor's attempt carry theirs in their own
contracts. `Prelude` and `Text` hold what the modules share. Run
`dafny verify dfyconfig.toml` to check everything.

## Where code and comments differ

- `shared_ceiling` is documented as the largest ceiling within the allowance. With
  leaves of 5 and 10 bytes and 11 allowed it returns 5, although 6 also fits
  (`SharedCeiling.LargestFails`). `SharedCeiling.Ceiling` states when it does retain the
  most: exactly when the allowance does not fall in a gap that tied leaves leave.
- The worker withholds the acknowledgement of a stop or cancel until the turn ends, but
  the poll issued after a turn report does not test for an outstanding cancel
  (worker/src/main.rs, line 557), so a cancel that answers a turn report is acknowledged
  at once. `WorkerAcks.CancelWithheldIff` states both halves.
- When the acknowledgement of an accepted feed fails, the worker logs that the next poll
  will retry it (worker/src/main.rs, line 626). It does so exactly when no stop and no
  cancel is outstanding (`WorkerPolls.FeedAckRetriedIff`). With a stop outstanding, the
  answer to that poll drops the token: a poll later, nothing holds it
  (`WorkerPolls.FeedAckDropped`, reached in `WorkerPolls.FeedAckDroppedReached`).
- A result message without a subtype is reported as a success but treated as a failure:
  its buffered blocks are discarded (executors/src/claude-executor.ts, lines 598-610 and
  653; `AssistantBuffer.UnmarkedResultLosesText`). `AssistantBuffer.ReportedSuccessExact`
  states exactly when a reported success delivers what was buffered, and
  `AssistantBuffer.NoneLostExact` exactly when a whole stream loses nothing.
- A stream that opens on an execution without events hands over neither a position nor
  a bound for the history, and its clients then page from the top
  (tests/contract/test_sse_connect_race.py, line 76). An event stored between the two is
  delivered by both (`EventStream.EmptyStartRepeats`). `EventStream.Watch` states that
  history and stream together are free of repeats exactly when there was a position or
  the history was still empty.

## Model

| member | source | states |
|---|---|---|
| Text.Cut | scheduler/src/api/types.rs:560-570 | Walking back from the byte target to a character boundary yields the longest prefix of at most that many bytes. |
| Text.LongestPrefixCorrect | scheduler/src/api/types.rs:560-570 | The prefix kept is within the budget and every longer prefix exceeds it. |
| Text.LongestPrefixTwice | scheduler/src/api/types.rs:560-570 | Cutting twice is cutting once to the smaller target, so repeated passes lose nothing but what the tightest ceiling demands. |
| PayloadTree.CollectExact | scheduler/src/api/types.rs:507-526 | The collected leaves are exactly the string leaves of the value: a path and text are listed if and only if the value holds that string there. |
| PayloadTree.CollectDistinct | scheduler/src/api/types.rs:507-526 | No path is collected twice, so indices into the list name leaves. |
| PayloadTree.SetAtOther | scheduler/src/api/types.rs:528-538 | Writing one leaf through its path changes that leaf and no other string. |
| PayloadTree.SetAtSize | scheduler/src/api/types.rs:528-538 | Writing a leaf changes the serialized size by exactly the change in that leaf's escaped length. |
| PayloadTree.KeyOrderSuffices | scheduler/src/api/types.rs:507-538 | A value that lists object keys in order repeats no key, which is what paths rely on. |
| PayloadBudget.FormatPath | scheduler/src/api/types.rs:475-490 | The loop renders a path as its dotted, indexed text. |
| PayloadBudget.AttachmentPaths | scheduler/src/api/types.rs:492-505 | A path is an attachment's exactly when it is a part's `raw` or the `data` of a content item's source. |
| PayloadBudget.RawText | scheduler/src/api/types.rs:475-490 | The first of these is reported as `parts[i].raw`. |
| PayloadBudget.DataText | scheduler/src/api/types.rs:475-490 | The second is reported as `content[i].source.data`. |
| SharedCeiling.Ceiling | scheduler/src/api/types.rs:540-556 | The ceiling retains at most the allowance; below the total the unused slack is less than the number of leaves at or above it; it retains the most any ceiling can exactly when the allowance falls in no tie gap; at the length of any leaf below it the allowance still had room to raise all longer ones; the subtraction never underflows. |
| SharedCeiling.BetterCeilingMeansTieGap | scheduler/src/api/types.rs:540-556 | A ceiling that retains more within the allowance exists only if some leaf length is a tie gap. |
| SharedCeiling.TieGapLosesBytes | scheduler/src/api/types.rs:540-556 | In a tie gap, any ceiling with the proved slack bound is not the best. |
| SharedCeiling.LargestFails | scheduler/src/api/types.rs:540-556 | Lengths 5 and 10 with 11 allowed: 5 is the only answer the allocator can give; it retains 10 bytes where 6 would retain 11. |
| PayloadBudget.EmptyAttachments | scheduler/src/api/types.rs:577-588 | Exactly the nonempty attachment leaves are emptied, and their paths listed in order. |
| PayloadBudget.OmittedExact | scheduler/src/api/types.rs:575-588 | A path is listed as omitted if and only if it is the rendered path of an attachment that held text. |
| PayloadBudget.Cap | scheduler/src/api/types.rs:572-604 | After emptying attachments and capping leaves the value is the original held to 16 KiB per shortenable leaf. |
| PayloadBudget.ShortenPass | scheduler/src/api/types.rs:621-651 | One pass holds every shortenable leaf to the ceiling, and reports a change exactly when some leaf exceeded it. |
| PayloadBudget.Shrink | scheduler/src/api/types.rs:606-664 | At most two passes; the outcome is within budget if and only if emptying everything shortenable would be; the ceiling found fills the budget; the pass bound and the fallback are never reached. |
| PayloadBudget.Apply | scheduler/src/api/types.rs:572-676 | Within budget if and only if emptying all attachments and long leaves would fit, otherwise the original untouched; when it fits, the value is the original held to one ceiling, the omitted paths are exactly the emptied attachments, and `changed` and the size are truthful. |
| PayloadBudget.LimitedIsServed | scheduler/src/api/types.rs:448-676 | A served value has the original's shape, keys, order and non-string values, and each string is a prefix of its original, untouched where it is neither attachment nor long. |
| PayloadBudget.LimitedAt | scheduler/src/api/types.rs:572-660 | Leaf by leaf: attachments are empty, leaves over 256 bytes are cut to the ceiling, all others are whole. |
| PayloadBudget.LimitedMonotone | scheduler/src/api/types.rs:624-676 | A higher ceiling never serves a smaller value. |
| PayloadBudget.EmptiedIsSmallest | scheduler/src/api/types.rs:572-676 | No value that keeps shape and prefixes is smaller than the one with everything emptied. |
| PayloadBudget.TextsDetermine | scheduler/src/api/types.rs:572-676 | A served value is determined by its leaves: same shape and reduced texts mean the same value. |
| JsonParser.RoundTrip | scheduler/src/resolution.rs:112-136 | Parsing the serialized text of any value the reader can produce gives that value back. |
| JsonReader.ReadWriteRead | scheduler/src/resolution.rs:112-136 | Whatever text is read, the value is one the writer round-trips: writing and reading it again gives the same value. |
| JsonReader.MembersReadInOrder | scheduler/src/resolution.rs:112-136 | An object's members may come in any order and repeat: read, they are in key order, each with the value last given. |
| JsonParser.SurroundedBySpace | scheduler/src/resolution.rs:112-136 | White space around a value changes nothing; anything else after it makes the text unreadable. |
| Json.EscapedLenExact | scheduler/src/resolution.rs:487-499 | The escaped length is the exact UTF-8 length of the escaped string. |
| Markers.I64Digits | scheduler/src/resolution.rs:501-511 | The counting loop returns the length of the decimal text, sign included. |
| Markers.MarkerBytesExact | scheduler/src/resolution.rs:425-472 | The closed form equals the byte length of the serialized marker for every batch id, optional escalation id, event id, timestamp, optional text and flag. |
| Markers.FitAnswerText | scheduler/src/resolution.rs:598-648 | The greedy loop keeps the whole answer when its marker fits, otherwise the longest prefix within the remaining escaped budget. |
| Markers.TruncationKeepsLongest | scheduler/src/resolution.rs:598-648 | When truncated, the marker with a given prefix fits the cap if and only if that prefix is no longer than the text kept. |
| Markers.WholeAnswerKept | scheduler/src/resolution.rs:598-648 | The answer is kept whole and unflagged if and only if the marker holding all of it fits. |
| Markers.NoMarkerExact | scheduler/src/resolution.rs:557-595 | For a representable timestamp, a source is judged to yield no marker exactly when the marker the backfill builds exceeds the cap. |
| Markers.LiveGateConservative | scheduler/src/resolution.rs:540-555 | An answer the live gate admits fits the cap in every marker with a UUID-sized batch id, positive ids and a representable timestamp. |
| Markers.LiveGateTight | scheduler/src/resolution.rs:540-555 | The gate refuses an answer if and only if a marker with a UUID-sized batch id and the largest ids has no room for it. |
| Markers.ResolutionCandidates | scheduler/src/resolution.rs:253-315 | The loop emits each part's candidate in part order, and nothing when there are several answers. |
| Markers.MarkerReadsBack | scheduler/src/resolution.rs:253-315 | Reading back a stored marker yields exactly one candidate with the written fields, ids only when positive, text only when nonempty, and no escalation. |
| Payloads.PartsReadIff | scheduler/src/resolution.rs:103-136 | The parts of a stored value are read if and only if it has an array of them, each an object whose data, if any, is an object too. |
| Payloads.DismissReadsBack | scheduler/src/resolution.rs:474-485 | Reading back a stored dismissal yields exactly one candidate: a dismissal of its batch that names its escalation when the id is positive, without text, under the user's role, and no escalation. |
| Payloads.EscalateReadsBack | scheduler/src/api/escalate.rs:106-114 | Reading back a stored escalation gives its batch, its importance, blocking when it has none, and its questions, or nothing when it asks nothing; it escalates that one batch and resolves nothing. |
| Payloads.CandidatesExact | scheduler/src/resolution.rs:253-315 | For any payload: unless there are several answers, there is a resolution at a position if and only if the part there is an answer or dismissal with a batch; it has that part's batch, kind and truncation flag, and names an escalation exactly by a positive 64-bit id. |
| Payloads.BatchesExact | scheduler/src/resolution.rs:183-208 | A payload escalates a batch if and only if one of its escalation parts names it. |
| Payloads.AnswerSourceExact | scheduler/src/resolution.rs:317-347 | A message answers a batch if and only if a user sent it, no part names a sender and its only answer part names the batch; the answer is the first text, empty counting as none. |
| LikePattern.LikePatternForBatchId | scheduler/src/resolution.rs:406-423 | The built pattern is the escaped JSON form of the id between wildcards. |
| LikePattern.PatternMatchesContainment | scheduler/src/resolution.rs:406-423 | Under `LIKE` with backslash escapes, the pattern matches a text if and only if the text contains the word. |
| LikePattern.PatternFindsPayload | scheduler/src/resolution.rs:406-423 | The pattern matches the stored text of every payload that carries the id as a string, at any depth. |
| LikePattern.PatternFindsMarker | scheduler/src/resolution.rs:406-472 | The pattern for a batch matches the stored text of every marker of the batch. |
| LikePattern.FilterPassesAnswers | scheduler/src/db/backfill.rs:284-289 | The filter on the message lane matches the serialized text of every value with an answer part. |
| BackfillScan.CollectUncoveredSources | scheduler/src/db/backfill.rs:182-355 | The two-phase scan with its in-place maps computes the owners, covered keys, uncovered sources, counts and retained bytes of the specification, with the same aborts; without an abort, the uncovered sources are all the answer sources of escalated batches that fit a marker and have none, and every source is counted as what it is. |
| BackfillScan.CollectFindsAll | scheduler/src/db/backfill.rs:294-355 | A key is found uncovered if and only if some row answers an escalated batch under it, fits a marker and has none in the log; the counts are those of the rows that answer, that no marker can hold, and that have one. |
| BackfillScan.ScanOwners | scheduler/src/db/backfill.rs:226-247 | A batch belongs to the execution and session of the first platform row that escalates it in a session of its own execution. |
| BackfillScan.ScanMarks | scheduler/src/db/backfill.rs:250-277 | A source counts as covered if and only if a platform row of its owner's session carries an answer for its batch that names its id. |
| BackfillAborts.CapExact | scheduler/src/db/backfill.rs:326-340 | A scan that succeeds under one cap gives the same result under every cap that holds the bytes it kept, and gives up for the cap under every smaller one. |
| BackfillAborts.AbortsHaveCauses | scheduler/src/db/backfill.rs:60-99 | Every abort has its cause in the log: a cap below the bytes of all it names, a refused id that is not positive on an escalation or an owned source, or an unmarked source without a usable timestamp. |
| BackfillAborts.SuccessMeetsNoCause | scheduler/src/db/backfill.rs:229-349 | A scan that succeeds passed no row that gives such a cause. |
| BackfillScan.FilterMissesNoSource | scheduler/src/db/backfill.rs:284-289 | On a stored value, filtering rows by text hides no eligible answer source: the row yields the source it would yield unfiltered. |
| Backfill.UncoveredReady | scheduler/src/db/backfill.rs:294-355 | Every uncovered source has its own row and a positive id, in ascending id order, and a marker for it is representable. |
| Backfill.CollectTally | scheduler/src/db/backfill.rs:182-355 | Sources seen are the uncovered, the already covered and the oversize ones. |
| Backfill.PlanChunk | scheduler/src/db/backfill.rs:388-404 | Every read chunk makes progress, is one row or at most 8 MiB and 256 rows, and stops only at a limit. |
| Backfill.PushMarker | scheduler/src/db/backfill.rs:441-465 | Buffering a marker keeps every batch within 1 to 200 rows and 4 MiB, and loses and reorders nothing. |
| Backfill.BuildMarker | scheduler/src/db/backfill.rs:409-440 | The re-read row of a source yields its marker: the fitted text, the source's id and its timestamp. |
| Backfill.InsertReadsBack | scheduler/src/db/backfill.rs:409-440 | An inserted marker reads back as the one answer of its source, with its batch, id, time and owner; the text is whole unless all of it does not fit. |
| Backfill.CollectPlan | scheduler/src/db/backfill.rs:437-440 | Every uncovered source has its marker, no marker exceeds the cap, so the later size skip never fires, and none was already covered. |
| Backfill.RunBackfill | scheduler/src/db/backfill.rs:373-481 | It fails exactly when the scan aborts; otherwise the batches concatenate to the markers of the uncovered sources in ascending order, each once, all bounded, and the tally balances. |
| Backfill.AuditFindsNothing | scheduler/src/db/detector.rs:65-87 | On the log with the markers appended, the same scan under the same cap does not abort, leaves owners unchanged, finds no uncovered source, and retains exactly the same bytes. |
| Backfill.MigrateThenAudit | scheduler/src/db/detector.rs:65-87 | Migration then audit reports no orphan, and every synthesized source counts as covered. |
| WorkerSession.Session.constructor | worker/src/main.rs:455-470 | A session starts with the assignment's token to acknowledge and a running executor. |
| WorkerSession.Session.RunSession | worker/src/main.rs:471-814 | From its start, over any sequence of inputs: everything issued was earned before it was acknowledged; the timer is armed only for an outstanding stop or cancel, which otherwise has the whole ladder climbed; SIGKILL follows SIGINT; what was reported and is still buffered is exactly the ledger of what arrived, consecutively numbered; each command sent follows the delivery that calls for it, each such delivery is followed by it, and polls report the state the log shows; and the state is that of the step function's run. |
| WorkerAcks.AcksEarnedInRun | worker/src/main.rs:471-814 | In every run, each acknowledged token is the assignment's, or was accepted as a feed, or was delivered by a stop or cancel, before the entry that acknowledges it. |
| WorkerAcks.FeedAckNeedsAccepted | worker/src/main.rs:596-607 | In every run, a token that no stop or cancel has delivered so far is acknowledged only after an Accepted event handled while its feed was pending, whatever delivers it later. |
| WorkerAcks.StopWithheld | worker/src/main.rs:848-858 | A fresh stop token that becomes pending is acknowledged by nothing issued before the turn ends, however often it is redelivered. |
| WorkerAcks.HeldStopAcked | worker/src/main.rs:516-522 | The report that ends the turn acknowledges the held stop. |
| WorkerAcks.CancelWithheldIff | worker/src/main.rs:557-561 | A fresh cancel token is withheld until the turn ends exactly when it did not arrive as the reply to a turn report. |
| WorkerAcks.TurnCancelAcksAtOnce | worker/src/main.rs:557-561 | A cancel that answers a turn report is acknowledged by the very next poll. |
| WorkerCommands.CommandsForwarded | worker/src/main.rs:838-876 | In every run, read off the log: a stop is sent on exactly after each stop delivered while the executor runs, a cancel exactly after each cancel, a prompt with its parts exactly after each feed with parts whose token is not already pending; the agent is stopped only right after a turn report, as the last entry; every polled state is the one the log shows. |
| WorkerCommands.HistoryGrows | worker/src/main.rs:471-814 | Every input the loop takes adds to the log exactly what it brings: the command of its reply, the settled or unsettled turn it reports, the feed it accepts, the stop of an agent whose report failed, the kill of a silent one. |
| WorkerPolls.FirstPollAcks | worker/src/main.rs:579-595 | The poll made when the agent first announces its session acknowledges the assignment. |
| WorkerPolls.FailedPollRepeats | worker/src/main.rs:750-770 | A poll that failed is repeated with its acknowledgement, and nothing waiting is dropped. |
| WorkerPolls.AnsweredPollForgets | worker/src/main.rs:744-770 | An acknowledgement whose poll was answered, while no cancel is outstanding, is not sent again. |
| WorkerPolls.ReportedThenPolls | worker/src/main.rs:563-572 | The poll after a turn report that brought no command carries what the report left to acknowledge. |
| WorkerPolls.IdleStopAcked | worker/src/main.rs:854-863 | A stop that finds the executor idle reaches nobody and is acknowledged by the poll issued at once. |
| WorkerPolls.FeedAckRetriedIff | worker/src/main.rs:625-645 | A feed acknowledgement that failed is retried by the next poll if and only if no stop and no cancel is outstanding. |
| WorkerPolls.FeedAckDropped | worker/src/main.rs:625-645 | With a stop outstanding, that poll acknowledges nothing and its answer leaves the token held nowhere. |
| WorkerLifecycle.EndsExactly | worker/src/main.rs:524-561 | A session ends exactly with its executor, its channel, a turn report that failed, or the report of a cancelled turn. |
| WorkerLifecycle.TurnEndAcks | worker/src/main.rs:516-522 | What ends a turn acknowledges the pending stop when no cancel is outstanding, and the last token held otherwise; only a closed channel with no token says nothing. |
| WorkerLifecycle.SilenceExact | worker/src/main.rs:574-577 | While a session runs, its silence timer is armed exactly when the last it heard from the executor was an unsettled turn, and the agent session it reports is the last one named. |
| WorkerEscalation.EscalationSafety | worker/src/main.rs:772-796 | In every reachable state an armed timer means an outstanding stop or cancel, an outstanding one means an armed timer or the whole ladder climbed, the stage is at most 2, and every SIGKILL follows a SIGINT since the last arming. |
| WorkerEscalation.CommandEscalation | worker/src/main.rs:738-741 | Handling any command re-arms the timer whenever something is outstanding. |
| WorkerMessages.MessagesConserved | worker/src/main.rs:648-684 | Over any run, reported messages followed by the buffer are the persisted messages received, in order, plus one synthesized per turn that buffered none and had output; forwarded copies match; numbers are consecutive from the first free one. |
| WorkerMessages.LedgerNumbers | worker/src/main.rs:477-522 | The ledger read off the inputs alone carries consecutive numbers. |
| WorkerMessages.TakenRuns | worker/src/main.rs:471-814 | What arrives after the session has ended changes nothing. |
| EventLog.NewestResumes | scheduler/src/db/events.rs:291-304 | Reading on below a row that was read continues exactly where that read stopped. |
| EventLog.OldestResumes | scheduler/src/db/events.rs:307-315 | Reading on above a row that was read continues exactly where that read stopped. |
| Cursors.CursorRoundTrip | scheduler/src/api/types.rs:704-710 | A cursor a page hands out is accepted and names the same id, exactly when the id is positive. |
| Decisions.ScanPending | scheduler/src/api/decisions.rs:215-258 | The scan leaves pending exactly the escalations of active executions, in a session of that execution, that no coherent row resolves. |
| Decisions.ScanPendingExact | scheduler/src/api/decisions.rs:199-213 | The pending ids of the fold over the rows are the set defined by quantifying over the log. |
| Decisions.OnlyActivePending | scheduler/src/api/decisions.rs:215-237 | Only escalations of active executions, stored in a session of their own execution, are ever pending. |
| Decisions.AskedPending | scheduler/src/api/decisions.rs:199-258 | A stored question is pending if and only if no row of the window names it within its session and execution. |
| Decisions.DismissalTargets | scheduler/src/api/decisions.rs:240-254 | A stored dismissal names its own escalation, in its session and execution, and no other. |
| Decisions.DismissedNotPending | scheduler/src/api/decisions.rs:199-258 | A dismissal stored in the question's session and execution takes it off the pending list. |
| Decisions.AnsweredNotPending | scheduler/src/api/decisions.rs:199-258 | So does a stored answer marker that carries its id. |
| Decisions.ReadChunk | scheduler/src/api/decisions.rs:393-432 | A chunk of at most 500 rows is read in order until the page is full. |
| Decisions.ReadChunks | scheduler/src/api/decisions.rs:393-443 | Despite chunking, the page stops at one place: at the row that fills it, after 2000 rows, or at the end. |
| Decisions.StopsAtUnique | scheduler/src/api/decisions.rs:393-443 | That place is unique, so chunk size and mid-chunk stops are unobservable. |
| Decisions.RetainHits | scheduler/src/api/decisions.rs:445-448 | Rechecking against the later pending set is the same as hiding both sets. |
| Decisions.ResolvedDecisions | scheduler/src/api/decisions.rs:353-497 | Limits and cursors are rejected exactly as specified; otherwise the page is the unhidden escalations among the rows read, and its cursor is the lowest row read, present exactly when rows remain. |
| Decisions.WalkResolved | scheduler/src/api/decisions.rs:353-497 | Following the cursor terminates, even while executions start and end between reads: the pages read consecutive stretches that make up the whole lane, each page within the limit, each holding its own stretch's escalations except those pending at one of that page's two reads. |
| Decisions.WalkIsHits | scheduler/src/api/decisions.rs:353-497 | Concatenated, the pages list the lane's escalations without those withheld, and a row is withheld exactly when the page that read it found it pending. |
| Decisions.WalkLists | scheduler/src/api/decisions.rs:353-497 | The walk's list is strictly descending and holds exactly the session-bound escalations of the log that no page withheld. |
| Decisions.WalkSteady | scheduler/src/api/decisions.rs:353-497 | While the active executions stay the same, the walk lists every session-bound escalation that is not pending exactly once, newest first. |
| EventPages.Resolve | scheduler/src/api/types.rs:693-727 | A query is accepted exactly when it has at most one cursor, a valid one, and a limit from 1 to 500 if any; it reads upwards exactly when asked to. |
| EventPages.OlderPage | scheduler/src/api/types.rs:732-762 | A page below a cursor serves the nearest decodable rows in ascending order, and its cursor is the lowest row it covered, present exactly when rows remain below. |
| EventPages.NewerPage | scheduler/src/api/types.rs:732-762 | A page above a cursor, likewise, with the highest row it covered. |
| EventPages.WalkOlder | scheduler/src/api/types.rs:732-762 | Following cursors downwards while the log grows ends, and yields the decodable events below the start of the log as first read, each once, in order. |
| EventPages.WalkAll | scheduler/src/api/types.rs:732-762 | From the newest event that is every decodable event of the scope. |
| EventPages.WalkNewer | scheduler/src/api/types.rs:732-762 | Following cursors upwards while the log grows ends, and yields the decodable events above the start of the log as last read, each once, in order. |
| EventStream.SendBatch | scheduler/src/api/sse.rs:116-130 | A batch is sent in order up to and including the first terminal event, and the position moves past every row scanned, decodable or not; nothing else is sent. |
| EventStream.CatchUp | scheduler/src/api/sse.rs:98-132 | A catch-up has sent exactly the decodable events of the last snapshot read, or stopped at the first terminal event of the whole log; besides events it sends an error, last, exactly when a read failed. |
| EventStream.StreamEvents | scheduler/src/api/sse.rs:48-134 | The frames are the position with its history bound, then wake by wake the ephemeral copy this execution's wake carries followed by events alone, then an error exactly when a read failed; other executions' wakes bring nothing; a lag or a closed channel drops the stream there; the events keep the catch-up property throughout, and only a state change of the execution itself ends it. |
| EventStream.CopiesDelivered | scheduler/src/api/sse.rs:86-97 | A client receives the ephemeral copies of the wakes handled for its execution, each once, in order, before the events its wake brought, and an error frame exactly as the last frame of a stream that broke. |
| TerminalEvents.TerminalExact | scheduler/src/api/sse.rs:158-172 | A stored state change ends the execution if and only if it belongs to no session and its outcome, or without one its target state, is completed, failed or canceled. |
| TerminalEvents.SessionsEndNothing | scheduler/src/api/sse.rs:158-172 | Rows of sessions end nothing: a stream over them sends them all. |
| EventStream.HistoryIsBase | scheduler/src/api/sse.rs:50-60 | Below the handed-off bound any later log holds exactly the rows the stream does not send, even when the bound overflows. |
| EventStream.PositionIsMax | scheduler/src/db/events.rs:362-373 | Above the position a later log holds exactly the rows appended since. |
| EventStream.Watch | scheduler/src/api/sse.rs:48-134 | A client pages through the history from the handed-off bound, or from the top without one, and follows the stream: once caught up it has every decodable event once, in order, up to the first later terminal event or the last snapshot read, if and only if the stream had a position or the history was still empty; otherwise the first event comes twice. |
| EventStream.HistoryServed | scheduler/src/api/sse.rs:53-60 | The history read is that of the log the stream opened on, or all of the log it is read from when there was no position. |
| EventStream.EmptyStartRepeats | scheduler/src/api/sse.rs:50-60 | One event stored between an empty start and the history read is in the history and above the stream's start. |
| AssistantBuffer.BlocksConserved | executors/src/claude-executor.ts:350-369 | The flushed messages carry exactly the blocks whose next boundary confirms them, in order; the buffer holds exactly those no boundary has reached. |
| AssistantBuffer.NothingTwiceNothingLost | executors/src/claude-executor.ts:350-369 | Flushed blocks followed by the buffer are what was received minus what was discarded at results that were not successes. |
| AssistantBuffer.NoneLostOnSuccess | executors/src/claude-executor.ts:597-610 | When every result is a success no block is lost. |
| AssistantBuffer.NoneLostExact | executors/src/claude-executor.ts:597-610 | A stream loses no block if and only if every result whose subtype is not a success, absent or not, finds the buffer empty. |
| AssistantBuffer.ReportedSuccessExact | executors/src/claude-executor.ts:597-653 | A result reported as a success delivers the buffer if and only if it carries a subtype or there was nothing to deliver. |
| AssistantBuffer.UnmarkedResultLosesText | executors/src/claude-executor.ts:597-653 | Text followed by a result without a subtype: a success is reported, nothing is delivered and nothing is held. |
| AssistantBuffer.ResultsFollowFlush | executors/src/claude-executor.ts:566-596 | Tool results are emitted with the buffer empty, right after it was flushed. |
| AssistantBuffer.ToolUsePrecedesResult | executors/src/claude-executor.ts:566-596 | A block received before some tool results, and not discarded, is persisted before them. |
| AssistantBuffer.ResultFallsBack | executors/src/claude-executor.ts:611-676 | A result carries the SDK's text or, when a success has none, the text of the last message flushed since the previous result, never an older one. |
| AssistantBuffer.TextInOrder | executors/src/claude-executor.ts:350-369 | A message's text is that of its text blocks, in order. |
| AssistantBuffer.UsageCounted | executors/src/claude-executor.ts:530-549 | A usage block counts cached tokens as input, and absent counts as nothing. |
| AssistantAnnouncements.AnnouncementsConserved | executors/src/claude-executor.ts:459-755 | Besides flushed messages an attempt emits exactly what each message announces, in stream order, whatever is buffered meanwhile. |
| AssistantAnnouncements.ResultsInOrder | executors/src/claude-executor.ts:566-596 | Tool results are the tool result blocks of the message, in order. |
| AssistantBuffer.Attempt.constructor | executors/src/claude-executor.ts:371-377 | Each attempt starts with nothing buffered and no text to fall back on. |
| AssistantBuffer.Attempt.FlushPendingAssistant | executors/src/claude-executor.ts:350-369 | Flushing emits the buffer once, captures its text and clears it, and does nothing when nothing is buffered. |
| AssistantBuffer.Attempt.HandleAssistant | executors/src/claude-executor.ts:499-565 | Errors are emitted at once; blocks and usage join the buffer; a stop reason flushes it. |
| AssistantBuffer.Attempt.HandleUser | executors/src/claude-executor.ts:566-596 | Tool results flush the buffer first; other user messages change nothing. |
| AssistantBuffer.Attempt.HandleResult | executors/src/claude-executor.ts:597-676 | A success flushes what is left, anything else discards it, and the fallback text is cleared. |
| AssistantBuffer.Attempt.Consume | executors/src/claude-executor.ts:459-755 | The attempt's message loop delivers and holds exactly the blocks the stream says. |
| Utf8.MatchOnBoundary | scheduler/src/api/wiki.rs:110-123 | A byte match of nonempty text falls on a character boundary, and the characters match there. |
| Utf8.EncodedPrefix | scheduler/src/api/wiki.rs:110-123 | No string's bytes begin another's without its characters doing so. |
| WikiEdits.FindInBytes | scheduler/src/api/wiki.rs:110-117 | The first byte match is at the byte offset of the first character match. |
| WikiEdits.FindAgainInBytes | scheduler/src/api/wiki.rs:118-129 | A byte match starting past the first one's first byte exists exactly when there is a later, possibly overlapping, occurrence. |
| WikiEdits.CutOut | scheduler/src/api/wiki.rs:129-136 | Both ends of a match can be sliced at, so slicing cannot fail, and leave what surrounds it. |
| WikiEdits.SingleEditExact | scheduler/src/api/wiki.rs:98-138 | A single replacement applies exactly when the old string occurs at exactly one position, overlaps counted, and replaces that one. |
| WikiEdits.SwapRestores | scheduler/src/api/wiki.rs:98-138 | The swapped edit then applies exactly when the new string occurs once, and restores the body. |
| WikiEdits.SplitIsSplit | scheduler/src/api/wiki.rs:101-108 | Replacing all splits at occurrences found left to right; joining the pieces with the old string gives the body back. |
| WikiEdits.SplitUnique | scheduler/src/api/wiki.rs:101-108 | There is only one such split. |
| WikiEdits.ReplaceAllJoins | scheduler/src/api/wiki.rs:108-108 | However the body is split at its occurrences, replacing all of them joins the pieces with the new string. |
| WikiEdits.ReplaceAllExact | scheduler/src/api/wiki.rs:100-108 | Replacing all applies if and only if the old string occurs, and then every occurrence becomes the new string and every piece between stays. |
| WikiEdits.ReplaceOne | scheduler/src/api/wiki.rs:109-138 | The byte-level search and slicing does what the character-level edit says, with the same errors. |
| WikiEdits.ApplyEdits | scheduler/src/api/wiki.rs:98-148 | Edits apply in order until one fails, whose index and reason are reported; an empty result is an error without an index. |
| WikiEdits.FirstFailure | scheduler/src/api/wiki.rs:98-138 | A patch fails at a position with a reason if and only if the edits before it apply and that edit fails so on what they made of the body. |
| WikiEdits.EmptyRefused | scheduler/src/api/wiki.rs:140-148 | A patch whose edits all apply is refused if and only if it empties the body. |
| WikiEdits.PatchRoundTrip | scheduler/src/api/wiki.rs:98-148 | A patch of reversible edits is undone by its swapped edits in reverse. |
| WikiAccess.AccessTo | scheduler/src/api/wiki_auth.rs:215-237 | Access is granted exactly to own and linked pages of an active caller, read-write exactly for own pages or through a read-write link with writes enabled. |
| WikiAccess.OrderDoesNotMatter | scheduler/src/api/wiki_auth.rs:215-237 | Access depends on which links there are, not on their order or repetition. |
| WikiAccess.ReachableProjectIds | scheduler/src/api/wiki_auth.rs:179-191 | The reachable projects are the caller's own, first, and the links' owners, each once; none for an inactive caller. |
| WikiAccess.ScopeAgrees | scheduler/src/api/wiki_auth.rs:240-256 | Search may return a page exactly when the caller has access to it. |
| WikiAccess.ScopeQuery | scheduler/src/search.rs:256-296 | The boolean query built clause by clause lets through exactly the documents in the scope, and an empty scope nothing. |
| WikiAccess.NarrowedIntersects | scheduler/src/search.rs:92-107 | Narrowing intersects a scope with one project. |
| WikiAccess.VisiblePages | scheduler/src/api/wiki.rs:440-468 | Reading only reachable projects, the listing holds every page the caller has access to, once, in order, with that access. |
| WikiAccess.ListedIffInScope | scheduler/src/api/wiki.rs:440-468 | A page is listed exactly when it is in the search scope. |
| WikiAccess.ListedCarries | scheduler/src/api/wiki.rs:440-468 | A listed page carries its own tags, and write access if and only if the caller may write it. |
| WikiAccess.ListedAppend | scheduler/src/api/wiki.rs:440-468 | The listing keeps the order of the pages. |

## Left out

- Execution, session and reconciler state machines: their transitions belong to services outside this core; reads treat the log as rows that become visible in id order.
- HTTP routing, authentication headers, entity tags and row mapping: plumbing without a property of its own. Event records are served as rows; the payload budget is proved on the payload alone.
- Rows whose timestamp the database cannot format make an event read fail as a whole; the event reads here take every timestamp as formattable. The backfill models that failure.
- Failed database reads outside the event stream: they abort a request and change nothing.
- Backfill deadlines, statement timeouts, retries and fail points: an abort leaves no state, so the model is of a scan that is not cut short.
- JSON nesting beyond the reader's depth limit of 128, and the formatting of floating point numbers, which are kept as their text.
- Calendar checks on timestamps: a representable timestamp is one of the right shape, which includes every one the program accepts.
- SharedCeiling.Ceiling: states exactly when the documented "largest" holds rather than that it always does, because it does not (see above).
- Overflow of the worker's 64-bit message number after 2^63 messages.
- Worker reports carry an agent session id; log entries do not show it. `WorkerLifecycle.SilenceExact` states which id the session holds.
- Error texts, error kinds and captured stderr in turn results: passed through unchanged.
- Process spawning, signals and clocks: signals are log entries, and timers may fire at any moment while armed.
- The retry loop inside one sync request: a request either succeeds once or has failed.
- Executor retries across attempts, the stdin command queue and the turn state: each attempt starts with a fresh buffer, and the properties are per attempt.
- Serialization failure of a single stream record, which the program logs and skips; keep-alive comments of the stream.
- Relevance scoring, tokenising and index maintenance of search: only the scope predicate is modelled, on documents whose tags are current.
- Wiki titles, tags, revisions and sharing confirmations: checks on rows.
