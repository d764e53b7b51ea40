# Verified models of the agent harness

A Dafny model of the parts of the harness (a coding-agent runtime written in Rust) whose
correctness is a matter of state and interleaving rather than of input and output, together
with proofs about them. `dafny verify dfyconfig.toml` checks everything.

What is modelled, file by file:

| files | models |
|---|---|
| `CronOutbox`, `CronService`, `OutboxProtocol`, `LeaseKeeping`, `OvertakenConsumer` | the durable outbox of the scheduler: several processes share one locked store of tasks and deliveries, claim deliveries under leases, hand them out, acknowledge them, and crash (`src/cron.rs`) |
| `CronPrompts`, `CronQueue` | the prompts the scheduler composes, its bounded ready queue, the single dynamic wakeup with its checkpoint (`src/cron.rs`) |
| `CronExpression`, `CronGrammar`, `CronDays`, `LoopCadence`, `LoopSchedule` | the cron parser against a printer, the days an expression names, the search for the next run, and the `/loop` cadences (`src/cron.rs`, `src/commands.rs`) |
| `SseFraming`, `SseBytes`, `SsePrinter`, `Utf8` | the incremental framing of server-sent events, over bytes and over text, against a line-at-a-time reader and against a printer (`src/api.rs`) |
| `EditDistance` | the palette's edit distance against edit scripts (`src/command_palette.rs`) |
| `ControlQueues`, `ControlFates`, `ControlRaces`, `LineReader` | the control session's priority lanes with cancellation, step by step under each lock, and its bounded line reader (`src/control.rs`) |
| `MemoryCodec`, `MemoryGrammar`, `MemoryRoundTrip`, `MemoryUpdates`, `MemoryTitles`, `MemoryRuns` | the workspace memory file: printer, parser, what the parser accepts, updates of the title map, optimistic consolidation, and whole runs of them (`src/auto_memory.rs`) |
| `AgentTable` | the background agents' job table, reservations, and rollback (`src/agents.rs`) |
| `LineWrap`, `PlainText`, `Transcript`, `ViewAnchor` | greedy wrapping, the bounding of texts, the fullscreen transcript with its cached rows, and where its view comes to rest (`src/fullscreen.rs`) |
| `Base64` | the clipboard's base64 decoder against RFC 4648, section 4 (`src/clipboard.rs`) |
| `TextBasics`, `JsonSpelling`, `Wrappers` | text, UTF-8 lengths, letter case, JSON strings against RFC 8259, section 7, shared types |

Code that works in place is a class or a method with loops, proved against a specification
function; what the program promises is then proved about those functions, over all inputs,
or over all runs of a state machine whose steps are those functions.

## Where the code falls short of its intent

These are results about the code as it is. Each comes with the exact condition under which
the intended property holds.

- **A poll can empty the task list.** When no task changes, the drained task list is not put
  back, and the write that records a claim stores it empty (src/cron.rs:699, 732-735, 792-794).
  `CronService.PollConservesTasks` says exactly when tasks survive; `CronService.TasksCanBeLost`
  is the smallest case.
- **An overtaken consumer is stuck.** A process whose lease ran out while it was working, and
  whose delivery another process claimed and then abandoned, never gets another prompt while it
  is alone: it neither takes the claim back nor passes its acknowledgement
  (src/cron.rs:762-773, 821-829). In every reachable state a process is served exactly unless it
  is overtaken or an error of a poll waits to be reported
  (`OvertakenConsumer.ServedExactlyUnlessOvertaken`); alone it stays overtaken
  (`OvertakenConsumer.OvertakenConsumerIsStuck`); and it does come to that
  (`OvertakenConsumer.ConsumersAreOvertaken`). Polling at least every half lease prevents it
  (`LeaseKeeping.HeldDeliveryIsNeverLost`), and meanwhile nobody else comes to hold the delivery
  (`LeaseKeeping.HeldDeliveryIsExclusive`).
- **One task without a next time stops every poll of every process.** A poll gets through exactly
  unless some due recurring task finds room but has no matching minute within 366 days
  (src/cron.rs:718-723, `CronOutbox.PollStopsExactly`), as `0 0 29 2 *` has none when it is due.
  Then no task fires and no lease is renewed, and the request after such a poll fails (src/cron.rs:625,
  1011-1013, `OvertakenConsumer.StoppedPollFailsTheNextRequest`,
  `OvertakenConsumer.RequestsFailWithoutOvertaking`).
- **A message reported cancelled can still be delivered**, and another one dropped in its place. Two
  conditions prevent it, both checked when a step takes effect, and both exact
  (`ControlFates.OrderlyExactly`). The second half of a cancellation must find its UUID unmarked and
  its message still to be dealt with, before any other message of that UUID
  (src/control.rs:845-853, `ControlFates.CancellationFailsExactly`); while the consumer has a message
  of the UUID in hand, this means that it is the very message being cancelled
  (`ControlFates.InFlightCancellation`). And a message may be sent under a marked UUID only if it is
  sure to come after the reported one (src/control.rs:347-359, `ControlFates.ResubmissionRevives`).
  Under these two, every message has one fate (`ControlFates.EachMessageHasOneFate`). `ControlRaces`
  has a run for each way of breaking them.
- **The lanes' priority holds within a pass only.** The consumer looks at the lanes one after
  another, so a message may overtake one that was sent to a lane already looked at; what order is
  guaranteed, and that nothing more is, is `ControlQueues.SureExactly`.
- **Cadences of several days are not even.** The comment at src/commands.rs:396-398 promises no
  short rollover gap; `LoopSchedule.EvenExactlyUpToADay` shows that this holds exactly for
  cadences up to one day, and that every month of 31 days breaks the longer ones.
- **The limit on background agents is not an invariant**: a job that `stop` puts back does not
  look at it (`AgentTable.ReinsertIgnoresLimit`, `AgentTable.LimitCanBeExceeded`).
- **An accepted memory entry can make the memory file unreadable for good**: one with an entry
  marker in a tag, or whose content is nothing but line breaks, passes validation and is written;
  after that no batch, no removal and no consolidation goes through again (`MemoryRuns.AcceptedEntryBreaksFile`,
  `MemoryRuns.UnreadableForGood`). The file stays readable exactly as long as every entry written
  is readable (`MemoryRuns.FileIsReadableExactly`), and a list comes back unchanged exactly under
  `MemoryRoundTrip.ExactRoundTrip`.
- **A text that is cut short need not show it.** Control characters are replaced by longer ones
  before the cut, and the ellipsis is appended only if the result takes fewer bytes than the text did
  before (src/fullscreen.rs:1438-1462): `PlainText.CutShowsExactly`, `PlainText.CutWithoutEllipsis`.
- **A view that is scrolled away drifts.** It is put back at the first row that shows the byte its top
  row began with, but rows abut and show both their ends (src/fullscreen.rs:1076-1097). So a change
  leaves the view alone exactly if its top row begins a line (`ViewAnchor.ViewStaysExactly`,
  `ViewAnchor.ViewKeepsItsLine`); otherwise every message, streamed update or change of the composer
  moves it up by one row, until it begins that line (`ViewAnchor.ViewDrifts`). A resize, which
  src/fullscreen.rs:511-512 wants to keep the first visible grapheme, puts it below the top row
  exactly if the new rows break there (`ViewAnchor.ResizeKeepsTheByte`).
- **A last line without a newline may be one byte longer** than the limit
  (`LineReader.UnterminatedLineGetsOneMoreByte`).

## Model

| member | source | states |
|---|---|---|
| CronOutbox.EveryTaskHasItsFate | src/cron.rs:699-730 | in a poll each task is kept, deferred, dropped as an expired recurring one, or fired into exactly one new delivery of its own, recurring ones staying with a later time |
| CronOutbox.OutcomeAt | src/cron.rs:699-730 | the outcome of a task is decided by the outbox as the tasks before it left it, so a task is deferred only if there was no room left |
| CronOutbox.OutcomeExactly | src/cron.rs:699-730 | when each outcome happens: a due task fires exactly if the outbox, as the tasks before it leave it, would still be a valid one with its delivery added, and is deferred exactly if not |
| CronOutbox.RoomForAllDefersNothing | src/cron.rs:709-717 | if everything stored and everything due is together within the limits, no task is deferred |
| CronOutbox.LimitsAre | src/cron.rs:1028-1089 | what the limits are, delivery by delivery |
| CronOutbox.PollAddsUp | src/cron.rs:699-735 | as many deliveries are added as tasks fired, as many tasks remain as were neither dropped nor fired once, and a poll in which nothing changes leaves both lists alone |
| CronOutbox.ChangeExactly | src/cron.rs:699-735 | a poll counts as a change exactly if a delivery is added or a task goes |
| CronOutbox.PlaceAfterPoll | src/cron.rs:699-735 | each task that stays, and each new delivery, has its place in the order of the tasks; a recurring task that fired keeps all but its two times |
| CronOutbox.NextRunsAdvance | src/cron.rs:1412-1427 | the next time computed for a recurring task is always in the future, whatever the clock and the cron text |
| CronOutbox.PollStopsExactly | src/cron.rs:699-730 | a poll stops without firing anything exactly if some due recurring task, once the tasks before it have fired, finds room and has no next time |
| CronOutbox.FiringKeepsLimits | src/cron.rs:711-730 | firing keeps the outbox within the count, byte, uniqueness and non-emptiness limits that the store's validation enforces |
| CronOutbox.ClaimingKeepsLimits | src/cron.rs:758-791 | claiming keeps them too |
| CronOutbox.ClaimedEach | src/cron.rs:758-791 | each delivery keeps id and prompt; its claim changes only if it was free, the claimant's own, or expired; whatever is staged carries a fresh lease of the claimant |
| CronOutbox.ClaimedExactly | src/cron.rs:758-791 | a claim is written anew exactly if the delivery is staged, or the process works on it already, owns its lease, and no more than half of that is left |
| CronOutbox.HeldStaysLeased | src/cron.rs:758-773 | after a pass, whatever the process holds and still owns is leased for more than half a lease, and no lease was cut short |
| CronOutbox.NoClaimNoChange | src/cron.rs:758-794 | a pass that reports no change has nothing to write and nothing to queue |
| CronOutbox.StagedFits | src/cron.rs:776-799 | all deliveries staged by a pass fit the queue one after another, so filling it never stops half-way, and none of them was held already |
| CronOutbox.StagedExactly | src/cron.rs:758-791 | a delivery is staged exactly if the process does not hold it, may claim it, and its queue has room for it after those staged before |
| CronOutbox.RoomyQueueTakesAll | src/cron.rs:758-791 | a process whose queue has room for the whole outbox stages every delivery it may claim and does not hold |
| CronService.Service.FireDueTasks | src/cron.rs:687-730 | the loop over the drained tasks computes exactly those outcomes, new deliveries and remaining tasks, and fails only if a recurring task has no next time |
| CronService.Service.ClaimDeliveries | src/cron.rs:740-791 | the loop over the deliveries computes exactly the claims and the staged deliveries of the pass |
| CronService.Service.Hydrate | src/cron.rs:795-808 | every staged delivery is appended to the queue, in order; the check of each push cannot fail |
| CronService.Service.PollDurable | src/cron.rs:682-808 | store, queue and progress of a poll, for each success or failure of its two writes; the outbox limits survive all of them |
| CronService.PollConservesTasks | src/cron.rs:699-735 | a poll that writes both times stores exactly the remaining tasks if and only if some task changed, there was none, or no claim changed |
| CronService.TasksCanBeLost | src/cron.rs:699-735 | with one task not yet due and one unclaimed delivery, a poll stores an empty task list |
| CronService.Service.Tick | src/cron.rs:997-1016 | a poll in the background that does not get to the end leaves its error for the next request |
| CronService.Service.TakeReadyPrompt | src/cron.rs:624-673 | a recorded error is reported first, once, and nothing else happens; otherwise the previous delivery is acknowledged, and only if that settles is the head of the queue handed out, and a delivery then becomes the one to acknowledge next |
| OutboxProtocol.StepKeepsInv | src/cron.rs:624-849 | every step of any process, crashes and half-finished polls included, keeps the protocol invariant |
| OutboxProtocol.LeasesNeverOverlap | src/cron.rs:740-794 | in every run, two leases of different owners on one delivery never overlap, although the processes' clocks need not agree |
| OutboxProtocol.NewLeaseFindsOthersExpired | src/cron.rs:774-791 | a lease is only ever taken by a poll of its owner, at a time by which every earlier lease of others on that delivery had expired |
| OutboxProtocol.HeldOnceAndOnlyUnderLease | src/cron.rs:740-808 | what a process holds it has a lease on in the store, so nothing is queued before its claim is committed; it holds it once, queued or being worked on |
| OutboxProtocol.TwoHoldersTakeTurns | src/cron.rs:740-808 | if two processes hold one delivery, the lease of one had expired when the other took its own |
| OutboxProtocol.LeavesOnlyByAck | src/cron.rs:810-849 | a delivery leaves the store only by an acknowledgement of the process that handed it out last, while the claim is still its own |
| OutboxProtocol.TakenWasDequeued | src/cron.rs:624-658 | whatever counts as handed out was at the head of that process's queue in an earlier step |
| OutboxProtocol.EveryDeliveryIsStoredOrAcked | src/cron.rs:682-849 | from its creation on, a delivery is in the store or acknowledged, never both, at every point of every run, crashes included; whoever acknowledged it had been handed it |
| OutboxProtocol.AbandonedWorkIsTakenOver | src/cron.rs:758-808 | once the lease on a stored delivery has run out, a completed poll by a process that does not hold it puts it in its queue, under a lease of its own, exactly if there is room for it when the pass gets there |
| OutboxProtocol.RoomForAllIsRoom | src/cron.rs:758-791 | there is room if the queue has room for all that is stored |
| LeaseKeeping.HeldDeliveryIsNeverLost | src/cron.rs:758-773 | on a common clock, a process whose polls come through at least every half lease keeps the claim of every delivery it holds until that leaves the store |
| LeaseKeeping.HeldDeliveryIsExclusive | src/cron.rs:758-791 | meanwhile no other process comes to hold the delivery |
| OvertakenConsumer.ServedExactlyUnlessOvertaken | src/cron.rs:624-673 | in every run, a process that can write the store settles its delivery and is handed the head of its queue exactly unless it was overtaken on that delivery or an error of a poll waits to be reported; the request takes that error with it |
| OvertakenConsumer.StoppedPollFailsTheNextRequest | src/cron.rs:624-730 | a background poll stopped by a task without a next time leaves store, claims and queue alone, and makes the next request of that process fail |
| OvertakenConsumer.RequestsFailWithoutOvertaking | src/cron.rs:624-730 | a run of three steps with one process and one task ends in a request that fails although nobody was overtaken |
| OvertakenConsumer.OvertakenConsumerIsStuck | src/cron.rs:810-849 | a process overtaken on the delivery it is working on gets no further prompt of any kind, however often it polls and asks, as long as no other process acts: every request leaves everything as it was, but for an error that it reports |
| OvertakenConsumer.ConsumersAreOvertaken | src/cron.rs:682-849 | a run of seven steps with two processes and one task ends in that situation |
| CronPrompts.PayloadIsSafeAndFaithful | src/cron.rs:1219-1225 | an escaped text contains no markup delimiter, and reading it as a JSON string gives the text back |
| CronPrompts.PromptCarriesText | src/cron.rs:1182-1208 | the prompt of a due task names it, says whether it was missed, and carries its escaped text as the one thing in its data element |
| CronPrompts.WakeupCarriesTexts | src/cron.rs:1210-1217 | the prompt of a wakeup carries its escaped reason and text in elements of their own |
| CronPrompts.EscapeForDataBytes | src/cron.rs:1219-1225 | escaping takes at most six bytes for each byte, and two for the quotes |
| CronPrompts.WakeupFitsReservation | src/cron.rs:1210-1217 | the prompt of every accepted wakeup fits the bytes reserved for it |
| CronQueue.ReadyQueue.PushCron | src/cron.rs:188-227 | a scheduled prompt is appended exactly if it leaves the reserved room; the byte counter stays the sum of the lengths |
| CronQueue.ReadyQueue.Pop | src/cron.rs:229-233 | the oldest prompt is removed, with its bytes |
| CronQueue.ReadyQueue.RemoveWakeups | src/cron.rs:240-257 | exactly the wakeups are removed, the rest keeps its order |
| CronQueue.WakeupSlot.Schedule | src/cron.rs:440-519 | a valid wakeup replaces whatever wakeup there was, in the slot or in the queue; a chain older than seven days ends instead; the exact acceptance condition |
| CronQueue.WakeupSlot.Stop | src/cron.rs:521-533 | the wakeup is gone from slot and queue, scheduled prompts stay |
| CronQueue.WakeupSlot.Restore | src/cron.rs:548-564 | restoring any earlier checkpoint succeeds in every reachable state and gives back its slot and its queued wakeup |
| CronQueue.WakeupSlot.PollDue | src/cron.rs:887-910 | a due wakeup that has not expired is always accepted by the queue |
| CronQueue.RoomForWakeup | src/cron.rs:188-197 | whatever is queued, a wakeup within the reservation still fits |
| CronQueue.ChainIs | src/cron.rs:480-506 | a wakeup starts a new chain exactly if there was none, its text is a new one or the last one came too long ago, and a chain ends exactly if it is continued after seven days |
| CronExpression.ParseField | src/cron.rs:1341-1388 | the loops over items and steps compute the declared values of a field; counting them decides whether the field covers its range |
| CronExpression.FieldValuesInRange | src/cron.rs:1341-1388 | the values of a field that parses lie in its range, and there is at least one |
| CronExpression.ParseCronExpression | src/cron.rs:1321-1339 | an expression is accepted exactly if it is a text of five well-formed fields within the size limit |
| CronGrammar.ItemReadsBack | src/cron.rs:1341-1388 | a printed item, with or without range and step, is read back as the values it stands for if it is in bounds, and refused if it is not |
| CronGrammar.ListReadsBack | src/cron.rs:1341-1388 | a printed list of items is read back as all their values, and refused if one of them is out of bounds |
| CronExpression.ParseDecimal | src/cron.rs:1390-1395 | a number printed in decimal is read back |
| CronExpression.NumberIsDecimal | src/cron.rs:1390-1395 | a text is read as a number exactly if it is that number in decimal after any zeros, and the number fits 32 bits |
| CronDays.ExpressionReadsBack | src/cron.rs:1321-1388 | a printed expression is accepted exactly if it is short enough, and each field is read as what its items name |
| CronDays.MatchesWhatIsNamed | src/cron.rs:1429-1453 | a printed expression matches a moment exactly if it names its minute, hour and month and, when only one of the two day fields leaves something out, the day there, when both do, either of them |
| CronDays.EitherDayIsEnough | src/cron.rs:1441-1453 | with both day fields restricted it matches exactly when the expression with any weekday or the one with any day of the month does |
| CronDays.NextRunIsOnANamedDay | src/cron.rs:1412-1453 | the next run is at a named minute, hour and month, on a named weekday if only weekdays are restricted, on a named day if only days are |
| CronExpression.NextCronRun | src/cron.rs:1412-1427 | the result is the first matching minute after the given time; there is none only if none matches within 366 days |
| LoopCadence.IntervalRoundsUp | src/commands.rs:483-505 | an interval is accepted exactly if it is positive and at most thirty days; it is rounded up to minutes |
| LoopCadence.UnitNames | src/commands.rs:483-505 | the names of the four units, whatever their case, and there is no other unit |
| LoopCadence.CandidatesAreTheCleanOnes | src/commands.rs:507-515 | the candidate list contains exactly the divisors of the hour, the hours that divide the day, and the days up to thirty |
| LoopCadence.NearestCleanIsNearest | src/commands.rs:507-518 | the chosen cadence is the nearest clean one, the shorter of two as near, and the request itself exactly if that is clean |
| LoopCadence.RoundingIsBounded | src/commands.rs:507-518 | rounding changes a request by at most a third |
| LoopCadence.ShownAsItIs | src/commands.rs:521-545 | a clean cadence is shown as a count and a unit that are read back as just that cadence |
| LoopSchedule.CadenceParses | src/commands.rs:521-545 | the cron text of every clean cadence is accepted by the parser, with the fields it is meant to have |
| LoopSchedule.FiresAtMultiples | src/commands.rs:521-545 | for a cadence up to a day the printed text, read back, matches minute t of a uniform clock exactly when t is a multiple of the cadence, whatever the calendar |
| LoopSchedule.NextRunIsNextMultiple | src/cron.rs:1412-1427 | the next run of such a cadence is the next multiple of it |
| LoopSchedule.EvenExactlyUpToADay | src/commands.rs:521-545 | on a calendar with a month of 31 days a cadence fires evenly if and only if it is at most a day |
| SseFraming.ScanExtends | src/api.rs:449-508 | a frame found early is the frame found with more input, and a search that found none can be resumed where it stopped |
| SseFraming.DrainExtends | src/api.rs:349-378 | draining in two steps finds the frames of draining once |
| SseFraming.NormalisedSplitIsLines | src/api.rs:519-528 | normalising line ends and splitting at line feeds gives the lines between CRLF, LF or CR |
| SseFraming.FrameDataCollects | src/api.rs:519-528 | the payload of a frame is what a line reader collects from it |
| SseFraming.CursorReadsLines | src/api.rs:349-378 | from the start of any line on, the payloads of the cursor's frames and tail are those of the line reader |
| SsePrinter.ReaderHandsOnTheData | src/api.rs:519-528 | a printed response, with lines of any other field anywhere between, is read as exactly the data lines of each event, joined with line feeds |
| SsePrinter.ReceivePrinted | src/api.rs:331-378 | receiving the UTF-8 bytes of such a response, however they are cut, hands on exactly the texts of its events |
| SseBytes.FrameCursor.NextFrame | src/api.rs:449-497 | the loop over the bytes finds the next frame of the specification and advances over the buffer in every iteration but the last |
| SseBytes.Receive | src/api.rs:331-378 | for every way to cut the bytes of a response into chunks, frames and pending tail are those of one pass over the whole, with at most one inspection for each byte and call |
| SseBytes.ScanCommutes | src/api.rs:449-508 | framing the UTF-8 bytes of a text is framing the text |
| SseBytes.PayloadsCommute | src/api.rs:519-528 | the payloads of the bytes of a text, frame by frame, are the payloads of the text |
| SseBytes.ResponseIsReadLineByLine | src/api.rs:349-378 | a response is refused exactly if its bytes are not UTF-8, and otherwise its payloads are those of the line reader on the decoded text |
| SseBytes.ReceivePayloads | src/api.rs:331-378 | however the bytes are cut, within characters too, the payloads are those of a reader that takes the decoded response line by line (HTML Living Standard, sections 9.2.5 and 9.2.6, with this code's trimming and its flush at the end); what precedes a refusal does not depend on the cuts either |
| Utf8.DecodeEncoded | src/api.rs:520 | every text is what its spelling decodes to |
| Utf8.EncodeDecoded | src/api.rs:520 | only the spelling of a text decodes to it: no overlong forms, no surrogates |
| EditDistance.Compute | src/command_palette.rs:1114-1129 | the two-row programme returns the length of a shortest edit script: one of that length exists and none is shorter |
| EditDistance.DistanceIsAMetric | src/command_palette.rs:1114-1129 | the distance is symmetric, zero exactly on equal strings, and obeys the triangle inequality |
| EditDistance.DistanceIsUnique | src/command_palette.rs:1114-1129 | there is only one distance between two strings |
| EditDistance.FuzzyMatch | src/command_palette.rs:846-903 | a name is offered in the last rank exactly if some script within the tolerance turns it into the query |
| ControlQueues.StepKeepsLanes | src/control.rs:144-220 | every step keeps the lanes bounded and in order, and delivers nothing twice |
| ControlQueues.LanesAreFifoAndBounded | src/control.rs:196-220 | in every run, messages of a lane are delivered in the order of their acceptance, none is delivered twice, and lanes never exceed their capacity |
| ControlQueues.DeliveryRespectsPriority | src/control.rs:326-346 | in every run, what was once sure to come before another message is dealt with before it, whatever is sent and cancelled meanwhile |
| ControlQueues.SureExactly | src/control.rs:326-346 | a message is sure to come before another one exactly if no continuation deals with the other one before it |
| ControlQueues.FirstInThePass | src/control.rs:326-346 | when a pass over the lanes begins, what waits in a lane polled earlier, or earlier in the same lane, is sure to come first, and nothing else is |
| ControlFates.OrderlyStepKeepsInv | src/control.rs:326-937 | every section of the two threads that runs under one lock keeps the invariant of UUID sets and fates, under the two conditions below |
| ControlFates.EachMessageHasOneFate | src/control.rs:326-937 | under these conditions an accepted message is still to be dealt with, delivered once, or reported cancelled once, and never both of the last, however the two threads interleave |
| ControlFates.CancelledStaysUndelivered | src/control.rs:326-363 | under these conditions a message reported cancelled is never delivered later |
| ControlFates.OrderlyExactly | src/control.rs:326-937 | a step meets its condition exactly if, however the threads then go on in order, no message that was reported cancelled is delivered |
| ControlFates.CancellationFailsExactly | src/control.rs:845-853 | the message of a cancellation can be delivered all the same exactly if the second half finds its UUID marked, its message dealt with, or another message of the UUID not sure to come after it |
| ControlFates.InFlightCancellation | src/control.rs:347-359 | while the consumer has a message of a UUID in hand, the second half of a cancellation of that UUID is harmless exactly if this is the message being cancelled |
| ControlFates.CancellationWindow | src/control.rs:845-853 | if the consumer looks a message up between the two halves of a cancellation, a message is at once both delivered and reported exactly if it was the one being cancelled, or that one had been delivered between the halves before |
| ControlFates.ResubmissionRevives | src/control.rs:347-359 | sending under a marked UUID lets its reported message be delivered, if and only if the new message is not sure to come after it |
| ControlFates.BehindIsSure | src/control.rs:326-346 | what has to hold of lanes and consumer before a message is sent so that it is sure to come after another one |
| ControlFates.SecondCancellationFails | src/control.rs:845-853 | the cancellation of a message that is still to be dealt with fails exactly if its UUID is marked already or another message of it may come first |
| ControlRaces.InFlightIsLost | src/control.rs:347-359 | a run in which a message in hand is lost and a newer one with its UUID is both reported cancelled and delivered |
| ControlRaces.ReceivedInTheWindow | src/control.rs:845-853 | a run in which a message is received between the halves of its cancellation |
| ControlRaces.ResubmissionRevivesCancelled | src/control.rs:347-359 | a run in which a cancelled message is delivered after its UUID was submitted again into a lane that is polled earlier |
| ControlRaces.PassedLaneRevivesCancelled | src/control.rs:326-346 | a run in which it was submitted again into a lane that is polled later, but the first lane had just been found empty |
| ControlRaces.TwiceCancelledIsDelivered | src/control.rs:845-853 | a run in which a UUID is cancelled twice and one of its messages is delivered |
| ControlQueues.Session.Reserve | src/control.rs:872-909 | room is reserved before the UUID is checked; what each outcome does to the queued set |
| ControlFates.DuplicateIsStillOpen | src/control.rs:872-909 | a message is refused as a duplicate only while the latest one under its UUID is still to be dealt with and not cancelled; any other message finds its way into a lane with room |
| ControlQueues.Session.SendReserved | src/control.rs:937 | the message is sent into the reserved room |
| ControlQueues.Session.RemoveQueued | src/control.rs:845-848 | the first half of a cancellation |
| ControlQueues.Session.InsertCancelled | src/control.rs:849-855 | the second half of a cancellation |
| ControlQueues.Session.TryLane | src/control.rs:329-341 | a look at one lane takes its oldest message |
| ControlQueues.Session.TakeCancelled | src/control.rs:352-359 | a message is dropped exactly if its UUID is marked, and takes the mark with it |
| ControlQueues.Session.Receive | src/control.rs:326-363 | undisturbed, the loop is a number of those steps; it drops cancelled messages and hands out one, or finds every lane empty |
| ControlQueues.AloneIsRun | src/control.rs:326-363 | what the consumer does alone continues any run, so what holds for runs holds for it |
| LineReader.ReadBoundedLine | src/control.rs:1552-1584 | result and stream position depend only on the bytes and the limit, whatever the buffer splits; an over-long line is consumed exactly through its newline |
| LineReader.DrainToNewline | src/control.rs:1586-1602 | the stream is left right after the next newline, or at its end |
| LineReader.LineEndIsFirstNewline | src/control.rs:1559-1562 | the end of a line is its first newline, or the end of the stream if there is none |
| LineReader.ReadsBackEveryLine | src/control.rs:1552-1602 | reading a stream of terminated lines and a tail gives those lines back in order, each judged on its own |
| LineReader.UnterminatedLineGetsOneMoreByte | src/control.rs:1563-1570 | the limit is one byte more generous to a last line without a newline |
| LineReader.TerminatedLosesItsBreak | src/control.rs:1552-1584 | a terminated line is returned without its newline and all carriage returns before that, if with those returns it is within the limit |
| MemoryCodec.ParseEntries | src/auto_memory.rs:1137-1165 | the loop over the file computes the parse of the specification, errors included |
| MemoryCodec.ValidEntryIs | src/auto_memory.rs:1213-1245 | what an entry needs to be accepted, character by character |
| MemoryCodec.BlanksDoNotMatter | src/auto_memory.rs:1137-1165 | blanks between entries do not matter, and anything else there is an error |
| MemoryCodec.RenderEntries | src/auto_memory.rs:1188-1211 | the loop over the entries computes the rendered file, errors included |
| MemoryRoundTrip.TagsRoundTrip | src/auto_memory.rs:1175-1195 | every list of tags survives its JSON spelling |
| JsonSpelling.StringsReadExactly | src/auto_memory.rs:1175-1186 | a text is read as a JSON string and a rest exactly if it spells the value character by character, in any of the ways RFC 8259, section 7 has, up to a quote |
| JsonSpelling.EscapeIsShortest | src/auto_memory.rs:1188-1211 | the JSON printer spells each character in a way that is as short as any |
| MemoryGrammar.TagsReadExactly | src/auto_memory.rs:1175-1186 | a text is read as a list of tags exactly if it is a JSON array of strings that spells them, blanks between the tokens allowed |
| MemoryGrammar.EntryReadsExactly | src/auto_memory.rs:1166-1186 | a section is read as an entry exactly if it has its title line, a line with a JSON array of its tags, and its content, and the entry is valid |
| MemoryRoundTrip.ParseBlock | src/auto_memory.rs:1137-1186 | a rendered entry is read back with its trailing line breaks removed if it is readable, and is an error otherwise |
| MemoryRoundTrip.RoundTrip | src/auto_memory.rs:1137-1245 | parsing a rendered file succeeds exactly if every entry is readable, and then gives the entries with trailing line breaks removed |
| MemoryRoundTrip.ExactRoundTrip | src/auto_memory.rs:1137-1245 | the very list comes back if and only if no tag contains an entry marker and no content ends in CR or LF |
| MemoryUpdates.BatchOverrides | src/auto_memory.rs:490-506 | a batch with distinct titles overrides the case-insensitive title map |
| TextBasics.LowerIgnoresCase | src/auto_memory.rs:493 | two texts have one key exactly if they are of one length and differ at most in the case of ASCII letters |
| MemoryTitles.ValidTitlesAreApart | src/auto_memory.rs:898-928 | a batch is valid exactly if its entries are and no two titles differ in case only, a consolidation exactly if besides none is deleted twice or both deleted and updated, case ignored |
| MemoryTitles.BatchReplacesTitles | src/auto_memory.rs:490-507 | after a batch, the entry under a title is the one of the batch whose title is that one but for case, or else the old one |
| MemoryTitles.ForgetRemovesTitle | src/auto_memory.rs:724-740 | after a removal there is no entry under that title, in whatever case, and every other title has the entry it had |
| MemoryTitles.ConsolidationReplacesTitles | src/auto_memory.rs:687-712 | after a consolidation a title has its updated entry, none if it was deleted, or else the old one, case ignored throughout |
| MemoryUpdates.BatchKeepsUnique | src/auto_memory.rs:490-506 | titles stay unique |
| MemoryUpdates.SortKeepsMap | src/auto_memory.rs:507 | sorting permutes the entries and leaves the title map alone |
| MemoryUpdates.SortSorts | src/auto_memory.rs:507 | the sort puts the entries in order |
| MemoryUpdates.LessIsLexicographic | src/auto_memory.rs:507 | the order of the sort is the lexicographic one |
| MemoryUpdates.ValidDeleteTitleIs | src/auto_memory.rs:912-919 | which titles a consolidation may delete |
| MemoryUpdates.ApplyUpdates | src/auto_memory.rs:490-506 | the update loop applies the batch, counts what is new, and fails exactly if it would append to a full list |
| MemoryUpdates.SortedUpdatesOverride | src/auto_memory.rs:687-712 | deletions followed by updates and sorting act on the map as (old minus deleted) overridden by the updates |
| MemoryUpdates.AutoMemory.RememberMany | src/auto_memory.rs:469-513 | exactly when a batch is accepted, what is then stored, and that every failure leaves the file alone |
| MemoryUpdates.AutoMemory.Forget | src/auto_memory.rs:724-740 | the entry with the title, whatever its case, is removed from the title map and no other; if there is none, or anything fails, the file is left alone |
| MemoryUpdates.AutoMemory.PrepareConsolidation | src/auto_memory.rs:632-668 | the session is registered once; the call fails exactly if a review is due and the file cannot be read, and gives a snapshot exactly if one is due and there are entries to review |
| MemoryUpdates.AutoMemory.ApplyConsolidation | src/auto_memory.rs:670-722 | a stale snapshot changes nothing, changed entries fail, and a commit overrides the map and drops only the sessions of its snapshot |
| MemoryUpdates.UnreviewedInOrder | src/auto_memory.rs:713-720 | the sessions that were not reviewed keep their order |
| MemoryUpdates.OverlappingReviews | src/auto_memory.rs:632-722 | of two reviews that follow each other closely at most one commits, and sessions registered in between are kept |
| MemoryRuns.RewriteReadsBack | src/auto_memory.rs:1137-1211 | rewriting a sound file gives a readable one exactly if the batch is readable; its title map, read back, is the old one without the deleted titles, overridden by the batch |
| MemoryRuns.RemovalReadsBack | src/auto_memory.rs:724-740 | removing entries from a sound file gives a sound file with exactly the others |
| MemoryRuns.FileIsReadableExactly | src/auto_memory.rs:469-740 | in every run, removals included, from the empty file on, the file can be read if and only if every entry written was readable, and then its titles are unique |
| MemoryRuns.UnreadableForGood | src/auto_memory.rs:469-740 | once the file cannot be read, no batch, no removal and no consolidation goes through again |
| MemoryRuns.AcceptedEntryBreaksFile | src/auto_memory.rs:1213-1245 | remembering any accepted but unreadable entry first makes the file unreadable for good |
| MemoryRuns.MarkerTaggedIsAccepted | src/auto_memory.rs:1225-1229 | an entry with an end marker as its tag is accepted and unreadable |
| MemoryRuns.BlankContentIsAccepted | src/auto_memory.rs:1230-1237 | an entry whose content is a line break is accepted and unreadable |
| MemoryRuns.SnapshotCommitsOnce | src/auto_memory.rs:632-722 | of all consolidations decided on what the memory was at one last consolidation, at most one commits, whatever is interleaved |
| MemoryUpdates.RememberDuringReview | src/auto_memory.rs:469-722 | what is remembered during a review is never overwritten by it |
| AgentTable.StepKeepsInv | src/agents.rs:1024-1131 | launches, runs, waits, stops, re-inserts, drops and rollbacks, interleaved in any way, keep the reservation counts exact |
| AgentTable.ActiveIdsAreInUse | src/agents.rs:869-881 | the active ids are exactly the ids with a live reservation |
| AgentTable.OneRunPerId | src/agents.rs:869-881 | no id has two agents running |
| AgentTable.StartsStayInBudget | src/agents.rs:1560-1575 | in every run, no more agents are started than the session allows, failed starts counted |
| AgentTable.WaiterTakesOnlyWhatItSaw | src/agents.rs:1400-1424 | a waiter removes the very job whose launch token it saw, and never a later launch under the same id |
| AgentTable.NothingIsOverwritten | src/agents.rs:2038-2057 | putting a stopped job back, or launching one, never overwrites a job of the table |
| AgentTable.RollbackRestoresCheckpoint | src/agents.rs:2093-2194 | after a rollback the owner has exactly the checkpointed launches that were still in the table; other owners keep theirs |
| AgentTable.RollbacksCommute | src/agents.rs:2175-2194 | rollbacks by different owners do not disturb each other |
| AgentTable.ReinsertIgnoresLimit | src/agents.rs:2052-2055 | putting a job back stays within the limit exactly if there is still room |
| AgentTable.LimitCanBeExceeded | src/agents.rs:2038-2057 | a run in which two jobs share a table with a limit of one |
| AgentTable.AgentRuntime.ReserveActive | src/agents.rs:869-881 | an id is reserved exactly if it was not active |
| AgentTable.AgentRuntime.DropReservation | src/agents.rs:590-601 | the last reference to a reservation frees the id |
| AgentTable.AgentRuntime.StartBackground | src/agents.rs:1024-1131 | a launch is refused by a full table, an active id or a used-up budget; one that cannot be prepared costs a start and gives its id back; what an accepted one adds |
| AgentTable.AgentRuntime.RemoveCompleted | src/agents.rs:2021-2035 | a job is removed exactly if it still carries the token |
| AgentTable.CheckpointKeepsEverything | src/agents.rs:2093-2101 | a rollback changes nothing exactly if what it keeps includes every launch of the owner; the checkpoint is the least that does |
| AgentTable.AgentRuntime.RollbackNewBackground | src/agents.rs:2175-2194 | the two loops remove exactly the owner's launches outside the checkpoint |
| LineWrap.WrapLine | src/fullscreen.rs:1464-1518 | the loop appends exactly the rows of the greedy wrapping |
| LineWrap.RowsAreGreedyTiling | src/fullscreen.rs:1464-1518 | the rows follow one another through the text, each as long as the width allows |
| LineWrap.GreedyTilingIsUnique | src/fullscreen.rs:1464-1518 | there is only one such tiling |
| LineWrap.RowsTileTheLine | src/fullscreen.rs:1464-1518 | rows cover the bytes of the line without gap or overlap, and none is wider than the screen |
| LineWrap.RowsShowTheLine | src/fullscreen.rs:1464-1518 | each row shows the very graphemes between its bounds, or one ellipsis for a single one wider than the screen, and the rows do so for the whole line, piece after piece |
| LineWrap.RowsDisplayTheText | src/fullscreen.rs:1464-1518 | what the rows of a line without a grapheme wider than the screen show, put together, is its text |
| LineWrap.Bound | src/fullscreen.rs:1438-1462 | the loop cuts a text of whole graphemes as the specification says |
| LineWrap.BoundedIsLongest | src/fullscreen.rs:1438-1462 | the cut is at the longest prefix within the limit, or the longest that leaves room for an ellipsis |
| LineWrap.BoundedFits | src/fullscreen.rs:1438-1462 | the result is within the limit, and is the text itself if that was |
| PlainText.BoundedPlainText | src/fullscreen.rs:1438-1462 | the loops over characters and graphemes compute the bounded text of the specification |
| PlainText.KeptIsLongest | src/fullscreen.rs:1440-1451 | what is kept of a text is its longest prefix within the limit |
| PlainText.ControlsAreReplaced | src/fullscreen.rs:1440-1451 | tabs and line breaks turn into spaces, other control codes into one replacement character, and all else stays |
| PlainText.ShownIsPrintable | src/fullscreen.rs:1438-1462 | no control code is ever shown |
| PlainText.BoundedFits | src/fullscreen.rs:1438-1462 | the result is within the limit, and is the text, with its control characters replaced, exactly as far as it fits |
| PlainText.CutShowsExactly | src/fullscreen.rs:1452-1461 | a cut text ends in an ellipsis exactly if one fits and what is kept takes fewer bytes than the whole text did, or ends in one by itself |
| PlainText.CutWithoutEllipsis | src/fullscreen.rs:1452-1461 | two control characters bounded to five bytes lose one of them and nothing shows it |
| Transcript.TrimKeepsLongestSuffix | src/fullscreen.rs:996-1008 | trimming keeps the longest suffix within the limits |
| Transcript.AccountIsSize | src/fullscreen.rs:996-1008 | the byte account is the size of the transcript written out with a newline after each line |
| Transcript.ContentIsTheRest | src/fullscreen.rs:1023-1041 | the transcript has the rows that header, composer and status line leave, if any |
| Transcript.CacheRowsFit | src/fullscreen.rs:1043-1049 | every cached row is a row of one line and fits the screen |
| Transcript.ReplacedIdsDistinct | src/fullscreen.rs:892-961 | after a replacement, with reused and new ids, line ids are still distinct |
| Transcript.FullscreenState.RebuildVisualCache | src/fullscreen.rs:1043-1049 | the cache becomes the wrapping of all committed, then all streaming lines |
| Transcript.FullscreenState.PushMessage | src/fullscreen.rs:390-414 | the message's lines are appended and the oldest trimmed; cache, byte count, ids and scroll position stay coherent, and a view scrolled away stays at its anchor |
| Transcript.FullscreenState.SetStreamingLine | src/fullscreen.rs:416-473 | the streaming lines are those the limits leave room for, with reused ids; everything stays coherent |
| Transcript.FullscreenState.CommitStreamingLine | src/fullscreen.rs:475-497 | the streaming lines are committed in order and the oldest trimmed; everything stays coherent |
| Transcript.FullscreenState.ReplaceActionMessage | src/fullscreen.rs:892-961 | the lines of an action are replaced in place; everything stays coherent |
| Transcript.FullscreenState.TrimToLimits | src/fullscreen.rs:996-1008 | the loop drops exactly the excess lines and keeps the byte count exact |
| Transcript.FullscreenState.Resize | src/fullscreen.rs:513-524 | a resize re-wraps everything and keeps the view coherent, a view scrolled away at its anchor |
| Transcript.FullscreenState.SetComposerReserve | src/fullscreen.rs:526-535 | a change of the composer keeps the view coherent, a view scrolled away at its anchor |
| Transcript.FullscreenState.SetStatus | src/fullscreen.rs:383-388 | a change of the status line keeps the view coherent |
| Transcript.FullscreenState.ScrollLines | src/fullscreen.rs:537-550 | scrolling is clamped, and sticky exactly at the bottom |
| Transcript.FullscreenState.ScrollToTop | src/fullscreen.rs:562-569 | the view is at the top, and sticky only if everything is visible |
| Transcript.FullscreenState.Clear | src/fullscreen.rs:499-511 | the transcript is empty and its view coherent |
| ViewAnchor.BottomIsTheLastScreen | src/fullscreen.rs:1059-1063 | at the bottom the view ends with the last row, and is full as soon as there are rows enough |
| ViewAnchor.ViewKeepsItsLine | src/fullscreen.rs:1076-1097 | whatever happens around it, as long as its top line is there, a view scrolled away comes to rest on the row it showed if that begins the line, and on the row before it if not |
| ViewAnchor.ViewLosesItsLine | src/fullscreen.rs:1084-1097 | if the line is gone, the view goes to the top |
| ViewAnchor.ViewStaysExactly | src/fullscreen.rs:1076-1097 | a change that leaves the lines alone leaves the view alone exactly if its top row begins a line |
| ViewAnchor.ViewDrifts | src/fullscreen.rs:1076-1097 | each of any number of changes further down moves the view up by one row, until it begins a line |
| ViewAnchor.ResizeKeepsTheByte | src/fullscreen.rs:513-524 | after a resize the top row shows the byte the view began with, and that byte begins the row below exactly if the new rows break there |
| Base64.Decode | src/clipboard.rs:792-841 | encoded data with ASCII whitespace anywhere decodes to exactly that data; whatever is accepted is canonical up to the unused bits of a padded quartet |
| Base64.WhitespaceIsSkipped | src/clipboard.rs:792-800 | tabs, line feeds, form feeds, carriage returns and spaces are skipped wherever they stand, and nothing else is |
| Base64.DecodeUndoesEncode | src/clipboard.rs:792-854 | decoding undoes the encoding of RFC 4648, section 4 |
| Base64.AcceptedIsAlmostCanonical | src/clipboard.rs:792-854 | accepted text is the encoding of its data if and only if its unused bits are zero |
| Base64.Run | src/clipboard.rs:792-841 | the one-pass loop with its four-byte buffer computes the quartet-wise decoding, with the same error |

## Left out

- File locks (the breaking of a stale lock included), atomic replacement, permissions, symlink checks, the JSON codec of the stores and UUID generation: the store is atomic and locked, and new ids are new.
- The other checks of a store that is read or written (task fields, claim times against the clock): a store that fails them counts as one that cannot be read or written.
- Two consumers in one process: the branch that refuses a second one cannot be reached with one.
- Clocks running backwards inside one process: each process's polls are assumed to be in the order of their times.
- The wording of the prompts that the scheduler composes: only its length is modelled.
- Session-only tasks, creation, deletion and listing of tasks: in the protocol any change of the task list and any queueing of other prompts is allowed at any time.
- Delay normalisation of a wakeup given in seconds, which is floating point; the absolute form is modelled.
- Saturating and overflowing arithmetic on times and sizes: times are unbounded, sizes stay far below the limits; the overflows of an interval and of cron numbers are modelled.
- Time zones and the calendar: a clock maps each minute to a local time; the cadence results use a uniform clock with an arbitrary calendar.
- The limit on the size of a stream and the decoding of its payloads (src/api.rs:364): the limit depends on the chunks within three bytes; framing is proved without it. What becomes of a payload, a malformed one included, is not modelled.
- ControlFates.EachMessageHasOneFate: assumes the two conditions that the results beside it show to be exact.
- ControlFates.CancelledStaysUndelivered: assumes them too.
- The separate receive of side questions, which takes what the first look of a pass would take; waiting and being woken, which start a new pass.
- The rest of the control session: parsing and validating messages, replays and lifecycle output, permissions, side questions.
- I/O errors: of the line reader's source, and of the state file after a consolidation has written the memory file.
- The secret detector of the memory file is a parameter, a predicate on texts; the review prompts and the model requests behind it are not modelled.
- AgentTable.AgentRuntime.StartBackground: the agent itself, its worktree, its notifications and its result are not part of the model; only the table, the reservations, the budget and the tokens are, and whether the run can be prepared is a parameter.
- Unicode segmentation and width tables: in the transcript a text is a sequence of graphemes with a positive length and width; in `PlainText` segmentation is a parameter.
- LineWrap.Bound: cuts between graphemes and takes control characters as replaced already; `PlainText` has the cut between characters.
- Selection, mouse, links, rendering and wheel acceleration in the fullscreen view.
- The ranks of the command palette before the last one, HTTP, retries, tools, hooks and configuration: easy members or foreign calls.
