# Verified model of the mini call manager

This project models the parts of the mini call manager that are hard to get right and proves properties of them with
Dafny 4.11. `dafny verify dfyconfig.toml` checks everything.

**The main loop** (`LoopModel`, `LoopQueue`, `LoopStop`, `LoopTimer`, `LoopSlots`, `LoopSafety`, `LoopStranding`,
`LoopTrail`, `LoopService`, `LoopRounds`).
`LosEventHandler` in self-driven mode is a transition system. Any number of posting calls, timer callbacks, the loop
task and a stopping task interleave; each has a program counter. One step is what the source does in one lock region or
with one atomic or semaphore operation. Two reads are merged into the lock region around them (the pop and the state it
reads), which hides no interleaving because the region is entered by one task at a time and the state is read once in it.
Atomics are sequentially consistent, as the source's default operations are. The mutex, the bounded semaphore, the
one-shot timer and the tick counter are assumed to behave as their adapter documents. Tasks run by the loop may post,
remove and stop: their calls are calls like any other, so every interleaving of them is included. `LoopSafety` says what
every interleaving keeps, `LoopTrail` what becomes of each delayed task and what the results mean, `LoopService` and
`LoopRounds` what each operation comes to, as a whole state, from any state of any run when nothing interrupts it. The
sequential parts are classes with the source's loops: `MessageRing.Ring` over an array, and `DelayedTable.Table`.

**Ticks** (`Ticks`): the conversions and the wrapping comparison, on 32-bit words with 64-bit intermediates.

**Calls** (`CallTable`, `CallHandlers`, `CallSafety`, `CallOutcomes`, `CallPresence`, `CallReference`, `CallCommands`,
`CallRequests`, `CallOrders`, `CallReports`, `CallTracking`, `CallAgreement`, `CallOnce`, `CallRuns`, `CallDeferrals`,
`CallPitfalls`). The main loop runs one task at a time, so the call state machine is sequential: each report handler,
request and timer is a function from state to state, and a run is any sequence of them. `CallReference` and
`CallCommands` define what a report is meant to leave in the table and to send, on the calls alone, and prove that the
handlers do just that; `CallOrders` does so for the requests. `CallObjects` and `CallControl` are the same handlers on
call objects that are changed in place and on the list that holds them, with the source's loops; each method is proved to
give the state the function gives, so the lemmas speak about the objects too.
A call that a failed replacement has put out of the table lives on as an object, and the handlers go on working on it,
as in the source.

**Reference counts** (`RefCount`): the strong and weak counts of one object under every interleaving of copies,
releases, weak copies and promotions, one atomic operation a step.

**Text** (`PrefixCode`, `Utf`): the converter pair, with the source's bit operations, against the grammar and the
encodings of RFC 3629 (sections 3 and 4) and RFC 2781 (sections 2.1 and 2.2).

## Where the code and its promises part

Each of these is stated with the condition under which the promise holds.

- A `Stop` called from the loop's own task is refused, but it withdraws RUNNING for a moment; a timer callback that tests
  the state then gives up, and a delayed task can be stranded (`LoopStranding.StrandedExactlyIfRefused`,
  `LoopSafety.NothingStranded`).
- A delay of 2^31 ticks or more is due at once (`Ticks.LongDelayIsDueAtOnce`).
- The header comment of `call_status_manager.cpp` (lines 16-20) says the replacement keeps its place. In a full table an
  incoming call is lost, and the second offer of the old object never succeeds (`CallOutcomes.RefreshKeepsCall`,
  `CallSafety.SecondOfferFails`, `CallPitfalls.FullTableLosesCall`).
- A replaced outgoing normal call takes the emergency mark of the latest dial (`CallOutcomes.RefreshKeepsMark`,
  `CallPitfalls.MarkIsTaken`).
- An emergency dial over a normal dial that has no index yet makes two calls of index 0.
  - The failure report, which goes by index and slot, then finds the wrong one (`CallRequests.RefusedEccDial`,
    `CallPitfalls.WrongCallFails`).
  - A deferred hang-up can be lost, in exactly two ways: a request that defers the hang-up of the other call overtakes it,
    or its own protect task takes out the other call, which stands before it. `CallDeferrals.HangUpFate` gives the
    condition for every task and `CallDeferrals.HangUpOverRun` for whole runs; `CallPitfalls.DeferralIsOvertaken` and
    `CallPitfalls.TimeoutTakesAnother` are the runs.
  - `UpdateDialingHandle` (`services/call/src/mini/call_status_manager.cpp:342-350`) looks for such a call on the report's
    slot, `UpdateDialingCallInfo` (line 287) takes the first one of any slot. With the calls on different slots the first
    report of one can name, or end, the other, and a hang-up that waits for the other goes out with this one's slot and
    index (`CallOutcomes.ReportNames` and `CallCommands.DeferredHangUpIsSent` give the conditions,
    `CallPitfalls.WrongCallIsNamed`, `WrongCallIsEnded` and `WrongCallIsHungUp` the runs).
- A hang-up that waits for an index is sent with index 0 if its call is failed first: by an incoming or waiting report,
  whatever the slot of that report (`CallCommands.DeferredHangUpIsSent`), by the protect task, a failed request or a
  dial the stack refuses (`CallDeferrals.HangUpFate`, `CallPitfalls.TimeoutSendsNoIndex`).
- A report does not always take its call to the reported state; `CallOutcomes.Follows` is the exact condition
  (`CallOutcomes.ReportIsTaken`, and over whole runs `CallRuns.CallsFollowReports`).
  - A dialing report of a known call only refreshes it (`services/call/src/mini/call_status_manager.cpp:281-286`;
    `CallPitfalls.DialingDoesNotMove`).
  - An incoming or waiting report changes the state only if the type or the video state changes too (lines 851-857;
    `CallPitfalls.WaitingDoesNotMove`).
  - An alerting report passes over a call that is disconnecting (lines 423-426; `CallPitfalls.AlertingDoesNotMove`).
  - The type and the video state a report gives are taken unless `CallAgreement.Missed` holds: only an IMS call, or one
    whose type changes, takes the video state (`CallReference.ReportedCall`).
- A delayed task's id is its own only as long as fewer than 2^32-1 tasks are posted while it waits
  (`DelayedTable.IdsOverRun`, `LoopTrail.DelayedIdsInCircle`).
- A listed call need not be in the table: a call first reported as holding or disconnecting is not taken up, and an
  unchanged entry is not handled again (`CallPresence.CallIsPresent`, `CallTracking.EntryHasCall`,
  `CallPitfalls.HeldIsNeverTakenUp`).

Assumptions on the stack, made where they are needed: report indices are positive and distinct within a report, and a
report of a slot is about that slot. A message accepted after the loop's final drain is never finished
(`LoopSafety.DrainFinishesExactly`): `Enqueue` tests the state before it takes the lock.

## Model

| member | source | states |
|---|---|---|
| LoopSafety.ReachedInv | utils/mini/src/los_event_handler.cpp:131-572 | every state reachable by any interleaving of posting calls, timer callbacks, the loop and a stopper satisfies the whole invariant |
| LoopSafety.MessagesConserved | utils/mini/src/los_event_handler.cpp:413-495 | accepted messages are, in acceptance order, finished, in the loop's hand or in the ring; none twice; the ring never holds more than the queue size and one |
| LoopSafety.DrainFinishesAll | utils/mini/src/los_event_handler.cpp:432-442 | a message accepted before the loop's final drain came to its end is finished in every later state |
| LoopSafety.DrainFinishesExactly | utils/mini/src/los_event_handler.cpp:432-442 | from the moment the drain finds the ring empty, in every continuation, the finished messages are exactly those accepted before it |
| LoopSafety.LeftInRing | utils/mini/src/los_event_handler.cpp:432-442 | a message in the ring once the loop is over is finished in no continuation |
| LoopSafety.SuccessMeansRanOnce | utils/mini/src/los_event_handler.cpp:352-401 | a synchronous call that returns success had its own task run to the end, exactly once: on the loop if it queued a context, inside the call if it came from the loop |
| LoopSafety.InlineRunsOnce | utils/mini/src/los_event_handler.cpp:354-363 | in any run a synchronous call from the loop's own task runs its task exactly once if it reports success and not at all otherwise |
| LoopSlots.SlotsAreExclusive | utils/mini/src/los_event_handler.cpp:509-519 | a waiter slot belongs to at most one call |
| LoopSlots.FreeSlotIsSilent | utils/mini/src/los_event_handler.cpp:388-400 | a free slot's semaphore holds no signal, so no later caller is woken by an abandoned call |
| LoopSlots.ConcludeTakesTheSignal | utils/mini/src/los_event_handler.cpp:388-397 | a call that finds its context done, by signal or after a timeout that raced with the completion, leaves its slot free and exactly without signal |
| LoopSlots.CompletingHolds | utils/mini/src/los_event_handler.cpp:497-507 | the context being completed still has its slot and that slot's semaphore is 0, so the post is never refused |
| LoopSafety.SlotsComeBack | utils/mini/src/los_event_handler.cpp:352-401 | a slot in use belongs to a call inside PostSyncTask or to an abandoned one whose message is accepted and not finished |
| LoopSafety.SignalsMatchSlots | utils/mini/src/los_event_handler.cpp:497-507 | in every reachable state no slot semaphore exceeds 1 and a free slot's is 0 |
| LoopSafety.RunningBalance | utils/mini/src/los_event_handler.cpp:447-480 | while RUNNING the ring holds one message for each signal, each post between unlock and signal, and the loop between wait and pop; no signal is refused and no pop finds an empty ring |
| LoopSafety.TimerAndStopGetThrough | utils/mini/src/los_event_handler.cpp:156-160 | at most one timer message is in the ring, it fits even when tasks fill the queue, and a stop's wake-up reaches a waiting loop |
| LoopTimer.TimerAlwaysFits | utils/mini/src/los_event_handler.cpp:457-464 | a timer callback at Enqueue's lock region finds a place, whatever the ring holds |
| LoopSafety.NothingStranded | utils/mini/src/los_event_handler.cpp:279-350 | as long as Stop is not called from the loop itself, a non-empty delayed table is always watched by the timer, the timer message or a step that will arm the timer |
| LoopSafety.StrandedMeansLost | utils/mini/src/los_event_handler.cpp:521-543 | for all runs: a stranded table means that an expiry was refused while RUNNING was withdrawn |
| LoopStranding.SelfStopStrands | utils/mini/src/los_event_handler.cpp:193-197 | the exact window: if only a registered callback watches the table and the loop's own task calls Stop before the callback tests the state, the table is stranded |
| LoopStranding.StrandingIsReachable | utils/mini/src/los_event_handler.cpp:193-197 | a run from the start reaches such a stranded table, so the unconditional promise is false of the code |
| LoopStranding.StrandedExactlyIfRefused | utils/mini/src/los_event_handler.cpp:533-538 | when only a registered callback watches the table, what its test of the state reads decides: the tasks are stranded if and only if RUNNING is withdrawn at that moment |
| LoopSafety.ReleaseIsQuiet | utils/mini/src/los_event_handler.cpp:214-233 | when Stop reaches ReleaseObjects the loop has exited, no call that saw RUNNING is active, no timer message is queued, no slot is held; only asynchronous messages are left in the ring |
| LoopSafety.NoUseAfterRelease | utils/mini/src/los_event_handler.cpp:186-233 | from the release on, in every continuation, these stay true and no step that would touch a kernel object is enabled |
| LoopStop.CountByCall | utils/mini/src/los_event_handler.cpp:76-98 | activeCalls_ equals the number of calls between their constructor and destructor |
| LoopTrail.DelayedTasksConserved | utils/mini/src/los_event_handler.cpp:297-350 | over every run each delayed task ever posted is in exactly one place: waiting, taken and not yet run, run, removed, or dropped by Stop; what the loop takes it runs in that order, and it has run it all when it is back at its wait |
| LoopTrail.RoundTakesTheDue | utils/mini/src/los_event_handler.cpp:545-560 | what a round takes out of the table is its front as far as it is due, all of it is handed to the loop to run, and the timer is pending for the rest if there is any |
| LoopTrail.DelayedIdsInCircle | utils/mini/src/los_event_handler.cpp:303-309 | over every run the n-th delayed post has the id n mod (2^32-1) plus 1: two share an id only a multiple of 2^32-1 posts apart |
| LoopTrail.ResultsMeanWhatTheySay | utils/mini/src/los_event_handler.cpp:279-401 | over every run a call succeeds if and only if it did what it says: its message is in the ring, its entry went into the table, an entry with its id came out, or its task ran to the end before it gave up |
| LoopService.AsyncComesTo | utils/mini/src/los_event_handler.cpp:279-296 | from every state of every run, uninterrupted: the message is last in the ring and signalled exactly if the handler runs and the ring has room; the whole resulting state |
| LoopService.DelayedComesTo | utils/mini/src/los_event_handler.cpp:297-326 | uninterrupted: the whole resulting state; one entry with the next id, due after the delay and at least one tick, and the timer armed if it is first |
| LoopService.RemoveComesTo | utils/mini/src/los_event_handler.cpp:328-350 | uninterrupted: the whole resulting state; the first entry with the id leaves and no other |
| LoopService.SyncComesToWait | utils/mini/src/los_event_handler.cpp:364-388 | uninterrupted up to the wait, with a free slot and room: the whole resulting state |
| LoopService.SyncFindsNoRoom | utils/mini/src/los_event_handler.cpp:381-387 | a synchronous call on a full ring gives its slot back and leaves no trace but its result |
| LoopService.WaitComesToAnEnd | utils/mini/src/los_event_handler.cpp:388-401 | the end of a wait by signal or by timeout: a context that is done is answered and its slot left free and silent, any other is abandoned; the whole resulting state |
| LoopService.ExpiryComesTo | utils/mini/src/los_event_handler.cpp:533-543 | an expiry while the handler runs puts the timer message into the ring, however full with tasks, unless one is on its way; the whole resulting state |
| LoopService.TimerPushSucceeds | utils/mini/src/los_event_handler.cpp:457-464 | over every run a timer callback in the lock region of Enqueue appends the timer message to the ring |
| LoopService.RefusedExpiryComesTo | utils/mini/src/los_event_handler.cpp:539-542 | an expiry refused by Enqueue clears the flag and restarts the timer; the whole resulting state |
| LoopRounds.TaskRound | utils/mini/src/los_event_handler.cpp:413-431 | one round with a posted task: the task has run and the loop waits again; the whole resulting state |
| LoopRounds.SyncRound | utils/mini/src/los_event_handler.cpp:262-268 | one round with a synchronous call: the context is done with success and its slot signalled, or freed if the call gave up; the whole resulting state |
| LoopRounds.TimerRound | utils/mini/src/los_event_handler.cpp:545-555 | one round with the timer message: the flag is clear, the due front of the table is in the loop's hands; the whole resulting state |
| LoopRounds.DueRound | utils/mini/src/los_event_handler.cpp:556-560 | the due tasks are run one after another until none is left |
| LoopRounds.LoopServesAll | utils/mini/src/los_event_handler.cpp:413-431 | from every state of every run the loop can run the task of every signalled message, in order, and come back to its wait |
| LoopRounds.OnlyStopRecycles | utils/mini/src/los_event_handler.cpp:257-275 | over every run, until a Stop takes effect, every message the loop is through with had its task run to the end |
| LoopRounds.StopBegins | utils/mini/src/los_event_handler.cpp:186-206 | Stop withdraws RUNNING, stops the timer, empties the table and signals the loop; the whole resulting state |
| LoopRounds.LastRoundEnds | utils/mini/src/los_event_handler.cpp:413-445 | the loop that is woken then recycles everything in the ring, in order, and exits |
| LoopRounds.StopCompletes | utils/mini/src/los_event_handler.cpp:186-233 | from every state of every run in which the loop waits and nobody is inside, Stop can go through to the release with every accepted message finished |
| LoopRounds.PollStartsOver | utils/mini/src/los_event_handler.cpp:214-225 | a poll that finds the timer message on its way or a slot in use goes back to counting the calls |
| LoopRounds.GivenUpReleasesNothing | utils/mini/src/los_event_handler.cpp:206-230 | over every run a Stop that waits too long gives up, and in every continuation nothing is released and RUNNING does not come back |
| LoopRounds.StopFromLoopComesToNothing | utils/mini/src/los_event_handler.cpp:193-197 | Stop called by the loop's own task leaves the state as it was |
| MessageRing.Ring.constructor | utils/mini/src/los_event_handler.cpp:157-159 | an empty ring with one place more than the queue size |
| MessageRing.Ring.Push | utils/mini/src/los_event_handler.cpp:456-465 | appends to a bounded FIFO sequence; ordinary messages are refused at the queue size, the timer message one later |
| MessageRing.Ring.Pop | utils/mini/src/los_event_handler.cpp:470-480 | removes the oldest message of that sequence |
| MessageRing.IndexAdvances | utils/mini/src/los_event_handler.cpp:463-477 | moving the head by one shifts every place by one and frees the last |
| DelayedTable.Table.Post | utils/mini/src/los_event_handler.cpp:297-325 | inserts at the position of the specification with the next id of the circle, arms the timer exactly when the entry comes first, refuses a full table unchanged |
| DelayedTable.Table.Remove | utils/mini/src/los_event_handler.cpp:328-350 | succeeds exactly if an entry has the id; then the first such entry is gone, all others are kept in order, none is added, and the timer is armed again exactly if it was the first of the table |
| DelayedTable.Table.TakeDue | utils/mini/src/los_event_handler.cpp:545-555 | takes exactly the due prefix in order and arms the timer for the rest |
| DelayedTable.Table.Arm | utils/mini/src/los_event_handler.cpp:521-531 | the timer is pending exactly for a non-empty table, with the distance to its first entry |
| DelayedTable.ArmedForTheFirst | utils/mini/src/los_event_handler.cpp:521-531 | the timer runs for the time that is left until the first entry is truly due, in whole ticks and at least one |
| DelayedTable.PostAddsOne | utils/mini/src/los_event_handler.cpp:297-325 | over runs: a post to a table with room adds exactly one entry, with the id of its serial number and the due time of its delay, at least a tick ahead |
| DelayedTable.RemoveTakesFirst | utils/mini/src/los_event_handler.cpp:337-349 | over runs: a removal takes out the first entry with the id and nothing else, and changes nothing if there is none |
| DelayedTable.TakeLogs | utils/mini/src/los_event_handler.cpp:548-555 | over runs: what leaves the table when due is appended to the log in its order, and nothing is lost or added |
| DelayedTable.IdsOverRun | utils/mini/src/los_event_handler.cpp:303-307 | over every run two waiting tasks have the same id if and only if a multiple of 2^32-1 posts lie between them |
| DelayedTable.RemoveTakesThatPost | utils/mini/src/los_event_handler.cpp:328-350 | over every run with fewer than 2^32-1 posts since: a removal with the id a post returned takes out exactly that post if it still waits, and nothing otherwise |
| DelayedTable.DueCountStops | utils/mini/src/los_event_handler.cpp:551-553 | the entries taken are due and the next one is not |
| DelayedTable.InsertPosIsStable | utils/mini/src/los_event_handler.cpp:310-316 | inside a window of 2^31 ticks the position follows every entry due at or before the true time and precedes every later one |
| DelayedTable.InsertKeepsOrder | utils/mini/src/los_event_handler.cpp:310-318 | insertion keeps the table sorted by true due time, first in first out for equal ticks, across the 32-bit wrap |
| DelayedTable.DueCountIsExact | utils/mini/src/los_event_handler.cpp:551-553 | the prefix taken is exactly the entries whose true due time has come |
| DelayedTable.DueTickIsWrapped | utils/mini/src/los_event_handler.cpp:308 | the stored due tick is the true due time, at least one tick ahead, modulo 2^32 |
| DelayedTable.TasksComeInOrder | utils/mini/src/los_event_handler.cpp:279-350 | over every run of posts, removals and expiries inside the window, what has been taken and what waits is in order of true due time and of posting among equals; nothing is taken early or left behind |
| Ticks.WrappedOrder | utils/mini/src/los_event_handler.cpp:59-63 | the signed 32-bit distance orders true times that differ by less than 2^31 |
| Ticks.LongDelayIsDueAtOnce | utils/mini/src/los_event_handler.cpp:297-308 | a delay is due the moment it is posted exactly when it is 2^31 ticks or longer |
| Ticks.IntermediatesFit | utils/mini/src/tel_os_common.cpp:25-30 | the 64-bit intermediates of both conversions never overflow |
| Ticks.MsToTicksIsLeast | utils/mini/src/tel_os_common.cpp:20-35 | a delay becomes the least tick count that is not shorter, or the longest finite count if none is long enough |
| Ticks.TicksToMsIsLeast | utils/mini/src/los_event_handler.cpp:65-74 | a tick count becomes the least number of milliseconds that is not shorter, or the longest finite one |
| Ticks.OnlyForeverIsForever | utils/mini/src/tel_os_common.cpp:20-35 | no finite delay becomes "forever", and no tick count does |
| Ticks.ArmingIsNeverEarly | utils/mini/src/los_event_handler.cpp:527-530 | converting ticks to milliseconds and back is never early exactly up to the longest exact tick count, and late by at most ceil(freq/1000) |
| RefCount.ReachedInv | utils/mini/src/refbase.cpp:19-105 | the counts and the history of the object agree with the holders in every reachable state |
| RefCount.StrongMeansAlive | utils/mini/include/refbase.h:231-239 | an sptr, and a promotion that has won, always has a live object |
| RefCount.GoneStaysGone | utils/mini/src/refbase.cpp:42-52 | once the strong count is back at 0 no copy and no promotion brings it back |
| RefCount.PromotionFailsExactlyIfGone | utils/mini/src/refbase.cpp:42-52 | over every run a promotion gives up if and only if it reads a strong count of 0, and then no sptr ever exists again; otherwise it goes on with the count it read, and an exchange that finds that count takes a share |
| RefCount.CopyComesTo | utils/mini/src/refbase.cpp:31-35 | a copy that nothing interrupts adds one to both counts and leaves a new sptr |
| RefCount.PromotionComesTo | utils/mini/src/refbase.cpp:42-52 | a promotion that nothing interrupts leaves an sptr if and only if there was one, and otherwise no trace |
| RefCount.ReleaseComesTo | utils/mini/src/refbase.cpp:94-105 | a release that nothing interrupts takes one from both counts; the last one destroys the object, gives up its share, and frees the counter with the last share |
| RefCount.WeakComesTo | utils/mini/src/refbase.cpp:112-124 | a wptr takes one share of the weak count and gives it back |
| RefCount.DestroyedOnceByTheLast | utils/mini/src/refbase.cpp:94-105 | the object is destroyed at most once, after every strong share is gone, by the call that gave up the last one |
| RefCount.FreedOnceAfterAll | utils/mini/src/refbase.cpp:24-29 | the counter is freed at most once, exactly when the object and all holders have given up their shares, and nothing steps afterwards |
| RefCount.RestingCounts | utils/mini/src/refbase.cpp:107-134 | with no operation part-way, the weak count is sptrs and wptrs and one for a live object |
| RefCount.RestingLeavesNothing | utils/mini/src/refbase.cpp:94-134 | with no operation part-way, the object has been destroyed exactly once if no sptr is left and not at all otherwise, and the counter freed exactly once if no wptr is left either |
| Utf.Str8ToStr16 | utils/mini/src/string_ex.cpp:117-136 | returns To16 of its argument |
| Utf.Str16ToStr8 | utils/mini/src/string_ex.cpp:92-115 | returns To8 of its argument |
| Utf.DecodeUtf8 | utils/mini/src/string_ex.cpp:49-89 | accepts exactly the characters of the grammar of section 4 of RFC 3629 and yields their number; a refusal leaves the position alone |
| Utf.AppendUtf8 | utils/mini/src/string_ex.cpp:30-47 | appends the octets of section 3 of RFC 3629 |
| Utf.RoundTrip8 | utils/mini/src/string_ex.cpp:92-136 | UTF-8 to UTF-16 and back is the identity on every well-formed string |
| Utf.RoundTrip16 | utils/mini/src/string_ex.cpp:92-136 | UTF-16 to UTF-8 and back is the identity on every well-formed string, supplementary characters included |
| Utf.RefusedExactly | utils/mini/src/string_ex.cpp:97-134 | the result is empty exactly for the empty and the malformed strings |
| Utf.GrammarIsEncodings | utils/mini/src/string_ex.cpp:49-89 | the octet grammar describes exactly the encodings of scalar values: no overlong form, surrogate, truncation or number above U+10FFFF |
| Utf.PairedIsEncodings | utils/mini/src/string_ex.cpp:97-111 | a string has no unpaired surrogate (section 2.2 of RFC 2781) exactly when it encodes scalar values |
| PrefixCode.RoundTrip | utils/mini/src/string_ex.cpp:92-136 | converting between any two lawful codes for the same values and back is the identity on well-formed strings |
| CallTable.EccRefusedOnlyForEcc | services/call/src/mini/call_object_manager.cpp:63-69 | an emergency call with a new id is refused only if an emergency call is already in the table |
| CallTable.ReservedPlace | services/call/src/mini/call_object_manager.cpp:63-69 | calls that are not emergency calls number at most MAX-1 |
| CallTable.AdvanceAgrees | services/call/src/mini/call_base.cpp:211-314 | SetTelCallState makes the two state views agree, and repeating it changes nothing |
| CallTable.LimitsAreOutOfReach | services/call/src/mini/call_object_manager.cpp:286-310 | the limits at which an incoming call would be hung up are above the size of the table |
| CallObjects.CallBase.SetTelCallState | services/call/src/mini/call_base.cpp:211-249 | the object's states change as the specification function says |
| CallObjects.CallManager.AddOneCallObject | services/call/src/mini/call_object_manager.cpp:49-81 | admits by id and size, and appends or changes nothing |
| CallObjects.CallManager.DeleteOneCallObject | services/call/src/mini/call_object_manager.cpp:124-136 | removes the first object with the id and no other |
| CallObjects.CallManager.GetOneCallObjectByIndexAndSlot | services/call/src/mini/call_object_manager.cpp:565-577 | the first object with this index and slot |
| CallObjects.CallManager.GetOneCallObjectByRunningState | services/call/src/mini/call_object_manager.cpp:503-513 | the last object in this running state |
| CallObjects.CallManager.RefreshCall | services/call/src/mini/call_status_manager.cpp:580-621 | the objects after it are what Refresh gives, which the lemmas on Refresh speak about |
| CallObjects.CallManager.UpdateDialingCallInfo | services/call/src/mini/call_status_manager.cpp:279-304 | the new state is BindDialing of the old |
| CallObjects.CallManager.DialingHandle | services/call/src/mini/call_status_manager.cpp:306-350 | the new state and the result are those of the specification |
| CallObjects.CallManager.DisconnectedHandle | services/call/src/mini/call_status_manager.cpp:452-528 | the new state is that of the specification, through nested binding and replacement |
| CallObjects.CallManager.IncomingHandle | services/call/src/mini/call_status_manager.cpp:218-277 | the new state is that of the specification, through the failure of an unnamed dial |
| CallObjects.CallManager.HandleCallReportInfo | services/call/src/mini/call_status_manager.cpp:70-100 | on the objects, for every report of a named call: the table is the one of the reference definition, flags and stack commands are those of the reference form, the invariant is kept |
| CallControl.Snapshots.HandleCallsReportInfo | services/call/src/mini/call_status_manager.cpp:103-147 | both loops handle exactly the events of Diff, in order, and the report without disconnected entries is kept; the invariant of objects and snapshots is kept |
| CallControl.HangUpCall | services/call/src/mini/call_control_manager.cpp:225-266 | the new state is that of the specification, the request to post is for the call that is meant and only if it is not being hung up or deferred, and the invariant is kept |
| CallControl.ProtectFires | services/call/src/mini/call_control_manager.cpp:273-285 | the new state is that of the specification, and the invariant is kept |
| CallControl.EccDialPolicy | services/call/src/mini/call_request_process.cpp:364-402 | refuses with nothing sent exactly if an emergency call is being dialed; otherwise hangs up and rejects the others in table order |
| CallControl.CarrierDialProcess | services/call/src/mini/call_request_process.cpp:253-284 | the new state and the result are those of the specification |
| CallControl.DialCall | services/call/src/mini/call_control_manager.cpp:73-109 | the new state and the result are those of the specification; the invariant is kept, and a refused normal dial leaves the calls as they were |
| CallSafety.HandleOk | services/call/src/mini/call_status_manager.cpp:70-100 | every report about a named call keeps: unique ids, one call per index and slot, the reserved place, agreeing state views, no disconnected call, flags that name unnamed calls |
| CallReference.ReportedTable | services/call/src/mini/call_status_manager.cpp:70-100 | for every report and state: the whole table afterwards, every field of every call and their order, given on the calls alone and without the handlers |
| CallReference.ReportedCall | services/call/src/mini/call_status_manager.cpp:70-100 | for every report and state: the call under its key afterwards, in all its parts, among them type, video state, mark and direction |
| CallCommands.ReportedRest | services/call/src/mini/call_status_manager.cpp:70-100 | for every report and state: the flags and the exact stack commands afterwards: the waiting hang-up, the resumption of a held call, or a rejection |
| CallOutcomes.ReportIsTaken | services/call/src/mini/call_status_manager.cpp:279-450 | for every live reported state: a report of a known call takes it to the reported state if and only if a condition on call and report holds (Follows), and otherwise leaves its state; it loses the call if and only if an incoming call changes its type in a full table; other calls, flags and stack are left alone |
| CallOutcomes.ReportNames | services/call/src/mini/call_status_manager.cpp:279-350 | every first report that looks for a dialed call without an index (dialing, alerting, active or disconnected) reaches the first such call of the table and no other, the one of its own slot if and only if no call of another slot stands before it |
| CallCommands.DeferredHangUpIsSent | services/call/src/mini/call_status_manager.cpp:798-812 | for every report: the hang-up that waits goes out exactly when the report gives its call an index (with that index) or, incoming, fails it (with index 0), and flag and protect task go with it; no other report sends one |
| CallCommands.HangUpWaitsOrGoesOut | services/call/src/mini/call_status_manager.cpp:798-812 | over any report a deferred hang-up keeps waiting exactly as long as its call is in the table without an index; when that ends it has gone out once |
| CallDeferrals.HangUpFate | services/call/src/mini/call_control_manager.cpp:225-301 | over every task of the main loop a deferred hang-up waits on for a call without an index, or goes out once, or is lost; it is lost if and only if the task is a request that defers another hang-up, or the call's protect task while another call without an index stands before it; tasks that are no reports send it with index 0 |
| CallDeferrals.HangUpOverRun | services/call/src/mini/call_control_manager.cpp:225-301 | over every run a deferred hang-up is sent if and only if no task drops it while it waits and it is not waiting at the end; then it is sent once, and a dropped one is never sent |
| CallDeferrals.DropNeedsAnother | services/call/src/mini/call_control_manager.cpp:225-301 | losing a deferred hang-up takes a second call without an index |
| CallPresence.CallIsPresent | services/call/src/mini/call_status_manager.cpp:70-100 | for every report and state: after it, its call is in the table if and only if a condition that can be read before holds (Present) |
| CallReference.ReportedStateHolds | services/call/src/mini/call_status_manager.cpp:70-100 | for every report and state: the call under its key is then in the reported state, unless it was known and does not follow the report; then it keeps its state |
| CallSafety.CreateIncomingEffect | services/call/src/mini/call_status_manager.cpp:226-253 | an incoming call is appended ringing, or rejected through the stack if the table refuses it; the ringing limit never applies |
| CallSafety.CreateDialingEffect | services/call/src/mini/call_status_manager.cpp:313-340 | an admitted dialing call is appended in the dialing state, becomes pending-MO if it has no index, and ends the dialing flag and the restore task |
| CallSafety.DisconnectedFoundOk | services/call/src/mini/call_status_manager.cpp:452-486 | the end of a call takes that call, only that call, and its flags out |
| CallSafety.RefreshOk | services/call/src/mini/call_status_manager.cpp:580-621 | replacement keeps the table sound and touches no other call |
| CallSafety.SecondOfferFails | services/call/src/mini/call_status_manager.cpp:594-597 | offering the old object again never helps: what keeps the new one out keeps the old one out |
| CallRuns.ReachedOk | services/call/src/mini/call_status_manager.cpp:70-100 | the invariant holds after every sequence of reports, requests, dials and timers |
| CallRuns.OneCallPerIndex | services/call/src/mini/call_object_manager.cpp:565-577 | in every reachable state a lookup by real index and slot has one answer |
| CallRuns.ViewsAgree | services/call/src/mini/call_base.cpp:211-314 | in every reachable state each call's running state belongs to its telephony state, spelled out state by state, and none is disconnected or in another state |
| CallRuns.NormalCallsLeaveRoom | services/call/src/mini/call_object_manager.cpp:63-69 | in every reachable state there are at most five calls, at most four of them normal |
| CallRuns.FlagsNameUnnamed | services/call/src/mini/call_request_event_handler_helper.cpp:57-103 | in every reachable state pending-MO and pending-hangup name different table calls of index 0, the dialing flag is clear, and no restore task is scheduled or would change anything |
| CallRuns.DeferredOnce | services/call/src/mini/call_status_manager.cpp:798-812 | over a whole run no call is hung up twice because of a deferred hang-up |
| CallOutcomes.RefreshKeepsCall | services/call/src/mini/call_status_manager.cpp:590-597 | a replaced call is kept if and only if the table has a place to spare or the call is outgoing |
| CallOutcomes.RefreshKeepsMark | services/call/src/mini/call_status_manager.cpp:716-725 | a replaced call keeps its emergency mark if and only if it is not an outgoing normal call after an emergency dial |
| CallRuns.NoCallOutlivesItsEntry | services/call/src/mini/call_status_manager.cpp:103-147 | in every reachable state a call with a real index is listed, not disconnected, in the last report of its slot, or was taken up by a report of a single call and no report of its slot has listed it or let it go since |
| CallRuns.WholeReportsListAll | services/call/src/mini/call_status_manager.cpp:103-147 | as long as the stack reports whole slots only, every call with a real index is listed, not disconnected, in the last report of its slot |
| CallRuns.CallsFollowReports | services/call/src/mini/call_status_manager.cpp:103-147 | in every reachable state a call listed in the last report of its slot has the listed state if and only if it is not among the calls that missed what was reported of them, and likewise the listed type and the listed video state |
| CallTracking.BatchFollows | services/call/src/mini/call_status_manager.cpp:103-147 | after one report the first of these holds for its slot, and the calls of the other slots were there before |
| CallTracking.EntryHasCall | services/call/src/mini/call_status_manager.cpp:103-147 | after one report of a slot: the call under every index in all its parts: for a changed entry what its event makes of it in the state it meets, for an unchanged one what it was, for a gone or disconnected one none; other indices are left alone |
| CallReports.EventsExactly | services/call/src/mini/call_status_manager.cpp:103-147 | an entry is handled if and only if it is alerting or the old report has none for its index that is alike in state, conference, video and type, and an entry the new report lacks is handled as disconnected; nothing else is handled |
| CallReports.EventsInOrder | services/call/src/mini/call_status_manager.cpp:103-147 | the events come in the order of the new report, then those of the calls it lacks in the order of the old one |
| CallReports.DiffIsReplacement | services/call/src/mini/call_status_manager.cpp:103-147 | the events, applied to the old snapshot, give one with the same calls as the new and the same state, conference, video and type for each |
| CallReports.UnchangedIsSilent | services/call/src/mini/call_status_manager.cpp:113-130 | an entry that did not change and is not alerting is not handled again |
| CallRequests.HangUpIsDeferred | services/call/src/mini/call_control_manager.cpp:252-259 | a hang-up of a pending-MO call moves the flag and sends nothing; a hang-up that waited for another call is dropped while that call still has no index; the protect task becomes this call's if and only if none is scheduled and the post succeeds |
| CallRequests.ProtectTakesFirst | services/call/src/mini/call_control_manager.cpp:268-289 | when the protect task fires for its call, the first unnamed call of the slot goes: that call itself if and only if no other stands before it; the hang-up is then sent with index 0, and otherwise dropped |
| CallRequests.CarrierDialOk | services/call/src/mini/call_request_process.cpp:253-327 | a dial entered with the dialing flag clear ends with it clear and no restore task, whatever fails |
| CallRequests.RefusedDialIsUndone | services/call/src/mini/call_request_process.cpp:229-327 | a normal dial refused by admission, the local report or the stack leaves table, states and flags as they were |
| CallRequests.RefusedEccDial | services/call/src/mini/call_request_process.cpp:229-327 | an emergency dial the stack refuses leaves the table as it was if and only if the slot has no unnamed call; otherwise that call goes and the refused one stays |
| CallRequests.NormalDialFits | services/call/src/mini/call_object_manager.cpp:200-238 | a normal dial that passes admission finds a place exactly if the table is below its limit, and always if all calls are of supported types |
| CallOrders.NormalDialSucceeds | services/call/src/mini/call_control_manager.cpp:73-109 | a normal dial succeeds if and only if the checks pass, the stack accepts it, no call is an emergency call or in the create, connecting, dialing or ringing running state, no two calls are CS or IMS, the type is supported and fewer than four calls exist |
| CallOrders.NormalDialDoes | services/call/src/mini/call_request_process.cpp:253-327 | then exactly one call is appended, dialing, pending-MO and of the dialed slot and type, and the stack gets one dial |
| CallOrders.NormalDialLeavesTwo | services/call/src/mini/call_object_manager.cpp:200-238 | a normal dial that succeeds never leaves three CS or IMS calls |
| CallOrders.EccDialSucceeds | services/call/src/mini/call_request_process.cpp:253-327 | an emergency dial succeeds if and only if the checks pass, the stack accepts it, no emergency call is being dialed, the type is supported and the table is not full |
| CallOrders.EccDialDoes | services/call/src/mini/call_request_process.cpp:364-402 | then the stack is told to end every other CS or IMS call that is not ending, the incoming ones last, and to dial, and one call with the mark is appended |
| CallOrders.NormalDialTurnedAway | services/call/src/mini/call_control_manager.cpp:73-109 | a normal dial that the checks, the line or the table turn away: the whole resulting state, which has no command and no new call |
| CallOrders.EccDialTurnedAway | services/call/src/mini/call_request_process.cpp:253-284 | an emergency dial that the checks, its policy or the table turn away: the whole resulting state; the line is cleared before the table is asked for a place |
| CallOrders.StackRefuses | services/call/src/mini/call_request_process.cpp:229-250 | a dial that only the stack refuses takes out the first call without an index on its slot, its flags, and sends the hang-up that waits for it |
| CallOrders.RefusedIsDialed | services/call/src/mini/call_request_process.cpp:364-402 | an emergency dial is refused by its policy if and only if an emergency call is being dialed or alerted |
| CallOrders.ForegroundIsMeant | services/call/src/mini/call_control_manager.cpp:225-266 | a hang-up without a call id means the last active call, else the last dialed one, else the last held one |
| CallOrders.HangUpIsRequested | services/call/src/mini/call_control_manager.cpp:225-266 | a hang-up that is not deferred posts a request for exactly the call that is meant, if it exists and is not disconnecting, and changes nothing itself |
| CallOrders.HangUpReaches | services/call/src/mini/call_request_process.cpp:140-162 | the posted task of a call in the table sends one hang-up with that call's own id, slot and index and changes nothing else; for a call that is gone it sends nothing |
| CallDeferrals.HangUpIsCarriedOut | services/call/src/mini/call_control_manager.cpp:225-266 | over every run: a hang-up that is not deferred posts its request, and whatever tasks run in between, that task sends exactly the hang-up of the call that was meant, if it is still there |
| CallOrders.RejectReaches | services/call/src/mini/call_request_process.cpp:112-138 | the posted rejection sends one hang-up with the call's own id, slot and index and keeps the last held call from being resumed by itself |
| CallOrders.UnHoldReaches | services/call/src/mini/call_request_process.cpp:179-194 | the posted resumption marks its call, and reaches the stack unless two carrier calls exist and one is of another slot |
| CallOrders.FailedRequestTakes | services/call/src/mini/call_object_manager.cpp:792-814 | a failed request takes out the first call under the key of the last dialed one, its flags, and sends the hang-up that waits for it; without a dialed call it does nothing |
| CallPitfalls.DeferralIsOvertaken | services/call/src/mini/call_control_manager.cpp:268-271 | a run in which a second deferral overtakes the first: the first hang-up is lost and the second has no timeout |
| CallPitfalls.TimeoutTakesAnother | services/call/src/mini/call_control_manager.cpp:273-285 | a run in which the protect task of an emergency call takes out the normal call; the emergency call stays without an index and its hang-up is neither sent nor waiting |
| CallPitfalls.TimeoutSendsNoIndex | services/call/src/mini/call_control_manager.cpp:273-285 | a run in which the protect task sends the deferred hang-up with index 0 |
| CallPitfalls.WrongCallFails | services/call/src/mini/call_object_manager.cpp:792-814 | a run in which a refused emergency dial takes out the normal call |
| CallPitfalls.WrongCallIsNamed | services/call/src/mini/call_status_manager.cpp:287-304 | a run in which the first report of an emergency call on slot 1 names the normal call of slot 0, and the emergency call stays without an index |
| CallPitfalls.WrongCallIsEnded | services/call/src/mini/call_status_manager.cpp:452-460 | a run in which the first report of the end of that emergency call ends the normal call of slot 0 |
| CallPitfalls.WrongCallIsHungUp | services/call/src/mini/call_status_manager.cpp:287-304 | the same run with a deferred hang-up of the normal call: it goes out with the slot and index of the emergency call |
| CallPitfalls.DialingDoesNotMove | services/call/src/mini/call_status_manager.cpp:281-286 | a run in which a dialing report leaves an active call active |
| CallPitfalls.WaitingDoesNotMove | services/call/src/mini/call_status_manager.cpp:851-857 | a run in which a waiting report leaves a ringing call ringing |
| CallPitfalls.AlertingDoesNotMove | services/call/src/mini/call_status_manager.cpp:423-426 | a run in which an alerting report leaves a disconnecting call disconnecting |
| CallPitfalls.HeldIsNeverTakenUp | services/call/src/mini/call_status_manager.cpp:113-130 | a held call that nobody knows, reported any number of times, is listed and never gets into the table |
| CallPitfalls.FullTableLosesCall | services/call/src/mini/call_status_manager.cpp:590-597 | a run from the start that fills the table, after which a report of another type takes an incoming call away |
| CallPitfalls.MarkIsTaken | services/call/src/mini/call_status_manager.cpp:716-725 | a run in which a normal call takes the mark of a later emergency dial |

## Left out

- LoopSafety.NothingStranded: requires that Stop is not called from the loop's own task, because the code strands a task otherwise; LoopStranding gives the run.
- LoopSafety.DrainFinishesAll: speaks of messages accepted before the drain ended, because a poster past its state test can add one later, which is never finished (LoopSafety.DrainFinishesExactly).
- LoopSafety.NoUseAfterRelease: covers self-driven mode; a handler with an external poster does not wait for its dispatches.
- `Init` and its failure paths, a second `Init` after `Stop`, and the external-poster mode of the handler.
- Memory orders weaker than sequential consistency, failure to allocate a RefCounter, and the OnFirstStrongRef and OnLastStrongRef hooks.
- The kernel adapters (`tel_os_adapter_cmsis.cpp`, `tel_os_adapter_posix.cpp`): their operations are assumed.
- Conferences: `JoinToConference` is refused in every state a call brings it to; the one way to another conference state (an IMS call replaced by a CS call with mpty set, then held) only changes fields the model does not have, and how many calls the admission counts.
- Call types other than CS and IMS in the lookups: such a call can only come from a report that rebinds a dialed call; the model keeps it in the lookups and leaves it out of the carrier list.
- The answer request, the switch request and the order of the checks inside the dial policy: they change no state; the model takes their outcome as an input.
- Phone numbers, names, times, original video types, phone index, bundle names and log output.
- Observers (`call_state_listener.cpp`, ability reports, audio): notifying them is taken to succeed, as it does once the manager is initialised.
- `needWaitHold_`, which nothing sets, and with it the dial that waits for a held call.
- The emergency test of a number is taken to answer the same in `DialCall` and in `CarrierDialProcess`.
- The posted tasks of hang-up, reject and resume requests, on objects: they are modelled on values (`CallHandlers.HangUpTask`, `RejectTask`, `UnHoldTask`).
- The kind of release a hang-up asks the stack for (release active, release held and waiting), which goes with the hang-up of an active call while another is held.
- Return codes of single reports beyond success and failure of a dial.
- `sptr` and `wptr` as classes: an assignment is modelled as a copy and a release, a move as handing the holder over.
