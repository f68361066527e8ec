# Verification of the kernel components and application logic of the ECU firmware

The firmware runs on an in-tree FreeRTOS V10.4.3 kernel. This project models the kernel components whose
correctness is not obvious from their text and a few pieces of the application, and proves what they are for.

* `Ticks`, `ListSpec`, `KernelList`: the wrapping tick count, sorted lists as sequences, and the circular
  doubly linked list in the heap that implements them (`list.c`).
* `TimerSpec`, `TimerLists`, `TimerSchedule`, `TimerOneShot`, `TimerStop`, `TimerDaemon`: the software timer daemon
  (`timers.c`), one function per step, what every run keeps of auto-reload, one-shot and stopped timers, and the class
  that updates its lists in place. A callback may post any commands: an oracle from the number of the callback to the
  commands posted while it runs.
* `QueueModel`, `QueueRing`, `QueueProtocol`, `QueueItems`, `RecursiveMutex`: the queue (`queue.c`) as a sequence, as a
  ring of bytes behind two pointers, as a protocol of tasks, timeouts and interrupts around a locked queue, what becomes
  of its items in every run of that, and the recursive mutex.
* `Bytes`, `StreamModel`, `StreamBuffer`, `StreamInterleaving`, `MessageInterleaving`, `MessageCopies`: stream and
  message buffers (`stream_buffer.c`): framing, the ring with its two-part copies, and one writer against one reader
  without a lock, of bytes and of messages, the messages once by whole copies and once byte by byte.
* `EventGroups`, `EventGroupObject`, `EventWords`, `EventWordRuns`, `Barrier`: event groups (`event_groups.c`) on sets
  of bits, on the 32-bit words that hold them, and the rendezvous of n tasks.
* `CoRoutineSpec`, `CoRoutines`: the co-routine scheduler (`croutine.c`).
* `Arithmetic`, `LookupTable`, `DatasetCodec`, `DatasetObject`, `Averaging`, `FuelGauge`, `FuelGaugeRuns`, `CanFilter`:
  characteristic curves, the dataset in its nonvolatile section, the averages and the state machine of the fuel gauge,
  the CAN receive filter.

Classes carry the fields the source updates; their methods are proved equal to functions on values, and the theorems
are about those functions, over every run or every input. Unsigned ticks, counts and counters wrap explicitly.
`configASSERT` conditions are preconditions, and so are the conditions below.

What the proofs assume of the surroundings:

* The timer daemon samples the tick count at least once per wrap while a timer is listed (when it blocks, the block time
  it asks for makes that so: `TimerSchedule.SampledWhenAwake`), and a command is handled less than 2^32 ticks after the
  time it carries. `TimerLists.PlaceExactly` says which commands are misjudged otherwise. The daemon's own commands find
  room in the timer queue (a `configASSERT`).
* No overwriting of a queue of empty items, since that overcounts (`QueueModel.SendFits`, `OverwrittenSemaphore`).
* A task takes a recursive mutex less than 2^32 times; the count is right exactly that long
  (`RecursiveMutex.AlwaysRightExactly`).
* The rendezvous has no timeouts and nobody else touches the bits of the mask.

Where the code and its documentation differ the code is followed:

* `src/midware/FreeRTOS/src/list.c:97-99` says an item inserted at the end is the last to be returned by the walk. The
  item the index stands on is still returned after it; the new one comes last exactly when the index stands on the
  marker (`KernelList.List.LastExactly`, `KernelList.InsertedAfterWalking`).
* `xTimerStop` is described as stopping a timer. When the daemon finds that the tick count has wrapped before it has
  handled the stop, it runs the due timer and posts a restart behind the stop, and the timer goes on
  (`TimerStop.StopOvertaken`). A stop holds exactly when nothing behind it starts the timer (`StopHoldsExactly`). So a
  stop from the timer's own callback holds when a due timer is processed, but not when the lists are switched and the
  timer is due again after the wrap (`CallbackHasLastWord`, `RestartHasLastWord`).
* `xQueueGenericReset` is described as waking one sender because it will be able to write; with a longer queue the other
  waiting senders are left asleep beside free places (`QueueProtocol.ResetLosesAWakeUp`; `ResetCovers` says when).
* `xEventGroupSync` is described as a rendezvous of all tasks; it is one exactly when every task brings a bit that no
  other task sets (`Barrier.BarrierExactly`, `Barrier.SameBit`).
* Leaving the error states of the fuel gauge is commented as clearing all error counters; the lower one is cleared twice
  and the higher one is not. It is cleared when normal operation is entered, so the bound on refills holds. The counter
  of slightly lower averages is decremented below zero (`FuelGauge.StepsDownExactly`, `CounterBelowZero`), and a
  negative display, which the default curve allows, rises to zero (`DisplayRisesExactly`, `NegativeDisplayRises`).
* `filter_outliers_by_max_deviation` is described as returning the remaining gap of the data, which its caller takes for
  maximum less minimum (`src/app/fuel_gauge_input/src/fuel_gauge_input.cpp:109-113`). A pass measures maximum less last,
  so rising readings pass as if they were equal (`HighestLastPasses`, `RisingLooksEqual`); up to three readings are not
  measured at all; and when three are left the gap is still that of four, which may be too large or too small
  (`StaleGap`, `StaleGapTooLarge`, `StaleGapTooSmall`). `Averaging.SpreadExactly` says for all readings when the gap is
  right.
* `xStreamBufferNextMessageLengthBytes` says the bytes it sees are none when they are not more than a length. It may see
  the length of a message whose data is still to come (`MessageInterleaving.PeekAssertExactly`, `PeekSeesHalf`).
* A receive that finds the message too long, or a look at its length, restores the tail. The length is in danger exactly
  when it does not fit any more with the bytes then held and what the writer has still to store, which may be more than
  when it was taken because the writer has found space, or finished a send, in between. Otherwise the restore does no
  harm (`MessageInterleaving.RoomExactly`, `RestoreLosesRoom`).
* The curves of the dataset are `int32_t`. `LookupTable.FitsYExactly` and `FitsXExactly` say on which tables that is
  wide enough; the default curves are among them.

## Model

| member | source | states |
|---|---|---|
| `TimerSchedule.RunKeepsSchedule` | src/midware/FreeRTOS/src/timers.c:508-548 | In every run of daemon steps, arriving commands and callbacks that post commands, across any number of tick wraps: the callbacks of an auto-reload timer that is left alone are exactly those for its first nominal times start + k * period, one each, in order and none early, and the timer is recorded in exactly one place for the next one |
| `TimerSchedule.BlockedMeansCaughtUp` | src/midware/FreeRTOS/src/timers.c:587-645 | When the daemon blocks with no command for the timer left in its queue, the timer has run (now - start) / period times since its last start: no expiry is forgotten |
| `TimerSchedule.StartedOnSchedule` | src/midware/FreeRTOS/src/timers.c:377-421 | A start command for a timer that is nowhere recorded puts it on the schedule of that start, whether or not it has run before |
| `TimerSchedule.RestartedOnSchedule` | src/midware/FreeRTOS/src/timers.c:803-835 | Handling the last queued start or reset command of an auto-reload timer, running or not, puts it on a new schedule from the time the command carries |
| `TimerSchedule.ChangedPeriodOnSchedule` | src/midware/FreeRTOS/src/timers.c:842-857 | Handling a change of its period puts it on one from that moment |
| `TimerSchedule.SleepsNotPastExpiry` | src/midware/FreeRTOS/src/timers.c:617-673 | The block time a daemon with a listed timer asks for ends no later than the next nominal time of any timer on schedule, and is not indefinite |
| `TimerSchedule.SampledWhenAwake` | src/midware/FreeRTOS/src/timers.c:617-626 | A daemon that has slept no longer than it asked has not missed a wrap, unless no timer is listed |
| `TimerSchedule.SwitchedTimer` | src/midware/FreeRTOS/src/timers.c:893-950 | The list switch leaves the old overflow list untouched as the current one and an empty overflow list; a drained auto-reload timer was run once for every expiry before the wrap and then waits in the queue, never in the drained list |
| `TimerSchedule.RunsBeforeWrapCount` | src/midware/FreeRTOS/src/timers.c:893-950 | How many expiries that makes and which is the last, in closed form: (2^32 - 1 - value) / period + 1 |
| `TimerSchedule.SwitchListsKeepsSchedule` | src/midware/FreeRTOS/src/timers.c:893-950 | The drain loop and the swap keep the schedule of a timer that is left alone, whichever timers are drained before, after or instead of it |
| `TimerSpec.DrainHead` | src/midware/FreeRTOS/src/timers.c:904-945 | Every pass of the drain loop lowers the summed distance of the listed expiries to the wrap, so the loop ends |
| `TimerSchedule.RunKeepsLists` | src/midware/FreeRTOS/src/timers.c:587-645 | In every reachable state both lists are sorted and every timer is listed once at most |
| `TimerSchedule.ReceiveStartKeepsSchedule` | src/midware/FreeRTOS/src/timers.c:803-835 | A start command, sent by a task or by the daemon to itself while it catches up, runs the timer at once when it is overdue and keeps its schedule |
| `TimerOneShot.RunsOnce` | src/midware/FreeRTOS/src/timers.c:508-548 | In every run, across list switches, overdue starts and any number of tick wraps: a one-shot timer that is left alone has run its callback once since it was started, not before start + period, and is then recorded nowhere; until it runs it is recorded in exactly one place |
| `TimerOneShot.BlockedMeansFired` | src/midware/FreeRTOS/src/timers.c:587-645 | When the daemon blocks with no command for it queued, a one-shot timer has run exactly when its time has come |
| `TimerOneShot.ExpiryFires` | src/midware/FreeRTOS/src/timers.c:508-548 | Processing its expiry takes it off the list for good and runs its callback, not early |
| `TimerOneShot.StartedOnce` | src/midware/FreeRTOS/src/timers.c:377-421 | A start command for a timer that is nowhere recorded begins such a run |
| `TimerOneShot.RestartedOnce` | src/midware/FreeRTOS/src/timers.c:803-835 | So does handling the last queued start or reset, whether or not the timer was running |
| `TimerOneShot.ChangedPeriodOnce` | src/midware/FreeRTOS/src/timers.c:842-857 | And handling a change of its period, from that moment |
| `TimerStop.RunStaysStopped` | src/midware/FreeRTOS/src/timers.c:743-889 | In every run in which no start and no new period for it comes, a stopped timer is in no list and its callback does not run |
| `TimerStop.StoppedForGood` | src/midware/FreeRTOS/src/timers.c:837-841 | So from the moment a stop or delete command is handled with nothing behind it that starts the timer |
| `TimerStop.StopHoldsExactly` | src/midware/FreeRTOS/src/timers.c:837-841 | A handled stop or delete takes the timer out of its list and runs no callback of it; it holds exactly when no start and no new period for it stands behind the command |
| `TimerStop.StopOvertaken` | src/midware/FreeRTOS/src/timers.c:893-950 | A run in which a stop does not hold: the daemon posts its own restart behind it and the timer goes on |
| `TimerStop.CallbackHasLastWord` | src/midware/FreeRTOS/src/timers.c:508-548 | What the callback of a due timer posts for it stands behind the restart that the daemon posts |
| `TimerStop.RestartHasLastWord` | src/midware/FreeRTOS/src/timers.c:904-945 | When the lists are switched it stands before it |
| `TimerLists.PlaceAgrees` | src/midware/FreeRTOS/src/timers.c:699-740 | The wrapped comparisons of an insertion agree with unbounded time for any command less than 2^32 ticks old: process now exactly when command + period has passed, otherwise the current list exactly in the same wrap and the overflow list exactly in the next |
| `TimerLists.PlaceExactly` | src/midware/FreeRTOS/src/timers.c:699-740 | For any command however late: it is processed now exactly when its age modulo 2^32 is at least the period, and that decision is right exactly when it is less than 2^32 ticks old or its age modulo 2^32 is at least the period |
| `TimerLists.PlaceTooLate` | src/midware/FreeRTOS/src/timers.c:699-740 | One that is misjudged: 2^32 + 1 ticks old and overdue, it is put in the current list |
| `TimerLists.ReceiveCommandValid` | src/midware/FreeRTOS/src/timers.c:743-835 | Handling a command keeps the lists sorted and every timer listed once at most |
| `TimerDaemon.Daemon.InsertTimerInActiveList` | src/midware/FreeRTOS/src/timers.c:699-740 | Inserts in place as the decision proved in PlaceAgrees says, or asks to process now |
| `TimerDaemon.Daemon.SwitchTimerLists` | src/midware/FreeRTOS/src/timers.c:893-950 | The drain loop terminates and computes the switch SwitchedTimer is about |
| `TimerDaemon.Daemon.SampleTimeNow` | src/midware/FreeRTOS/src/timers.c:676-697 | Switches the lists exactly when the tick count reads lower than last time, and remembers it |
| `TimerDaemon.Daemon.ProcessExpiredTimer` | src/midware/FreeRTOS/src/timers.c:508-548 | Takes the head timer out, reloads it relative to its expiry or posts a restart, and runs its callback once, one-shot or not |
| `TimerDaemon.Daemon.ProcessTimerOrBlockTask` | src/midware/FreeRTOS/src/timers.c:587-645 | One turn of the daemon: switch, run the head timer or block; it blocks exactly when nothing is due, for the wrapped time to the next expiry or to the wrap, indefinitely exactly when both lists are empty |
| `TimerDaemon.Daemon.ExecuteCommand` | src/midware/FreeRTOS/src/timers.c:797-885 | The switch over the command kinds |
| `TimerDaemon.Daemon.ProcessReceivedCommands` | src/midware/FreeRTOS/src/timers.c:743-889 | The command loop: each timer command is taken out of its list, sampled for and executed, in order |
| `TimerDaemon.Daemon.SendCommand` | src/midware/FreeRTOS/src/timers.c:377-421 | A command is appended behind those queued, or dropped and the caller told, exactly as the queue has room |
| `TimerDaemon.Daemon.constructor` | src/midware/FreeRTOS/src/timers.c:953-1001 | Both lists and the queue start empty |
| `ListSpec.BuildSortedAndStable` | src/midware/FreeRTOS/src/list.c:115-209 | After any run of sorted inserts and of removals of single items the list is sorted, its items of equal value stand in the order of the inserts that brought them, and each item is that of such an insert |
| `ListSpec.InsertTies` | src/midware/FreeRTOS/src/list.c:115-180 | A new item comes after all items of its value and leaves those of other values alone |
| `ListSpec.InsertSorted` | src/midware/FreeRTOS/src/list.c:115-180 | An insert keeps the order |
| `KernelList.LinkedSortedAndStable` | src/midware/FreeRTOS/src/list.c:115-209 | The same of the linked items of a list in the heap, whatever inserts and removes brought it about |
| `KernelList.List.constructor` | src/midware/FreeRTOS/src/list.c:48-70 | The end marker alone forms the cycle and holds the highest value |
| `KernelList.List.InsertEnd` | src/midware/FreeRTOS/src/list.c:85-112 | Linking before the index keeps one cycle in both directions with matching container, count and index fields; the item comes last in the walk, except that the item the index stands on still comes after it |
| `KernelList.List.LastExactly` | src/midware/FreeRTOS/src/list.c:97-112 | The item comes last in the walk exactly when the index stands on the end marker |
| `KernelList.InsertedAfterWalking` | src/midware/FreeRTOS/src/list.c:97-112 | Where it does not: after the one item of a list is returned, one inserted at the end is returned before it |
| `KernelList.List.FindPosition` | src/midware/FreeRTOS/src/list.c:135-165 | The search loop ends and stops behind exactly the items whose value does not exceed the new one, the highest value handled apart |
| `KernelList.List.Insert` | src/midware/FreeRTOS/src/list.c:115-180 | Links the item in as the sorted insert of the sequence says, keeps the cycle and the fields, and a list built by inserts and removes stays one |
| `KernelList.List.Remove` | src/midware/FreeRTOS/src/list.c:183-209 | Unlinks exactly that item, clears its container, moves an index that stood on it to its predecessor; the list of entries loses the one at its position, which is the removal by owner when the owner is listed once; a list built by inserts and removes stays one |
| `KernelList.RemoveItem` | src/midware/FreeRTOS/src/list.c:183-209 | The same, with the list found from the item's container alone |
| `KernelList.RemovedFromWalk` | src/midware/FreeRTOS/src/list.c:196-204 | A remove leaves the walk order of the other items as it was |
| `KernelList.List.GetOwnerOfNextEntry` | src/midware/FreeRTOS/src/include/list.h:279-291 | Returns the items of a list in turn, skipping the marker: the first of the walk goes to its end |
| `QueueRing.QueueRing.constructor` | src/midware/FreeRTOS/src/queue.c:264-278 | A new ring is empty, its last-read pointer on the last slot |
| `QueueRing.QueueRing.CopyDataToQueue` | src/midware/FreeRTOS/src/queue.c:2126-2206 | A send to the back puts the item behind all others, one to the front of a queue of real items before all others, an overwrite leaves it alone; the write slot stays (last-read slot + 1 + count) modulo the length |
| `QueueRing.QueueRing.CopyToBack` | src/midware/FreeRTOS/src/queue.c:2153-2165 | The pointer written to wraps at the tail and the item becomes the last |
| `QueueRing.QueueRing.CopyToFront` | src/midware/FreeRTOS/src/queue.c:2167-2199 | The item goes where the last one was read, the pointer steps back around the head, an overwrite does not count up |
| `QueueRing.QueueRing.CopyDataFromQueue` | src/midware/FreeRTOS/src/queue.c:2209-2227 | Steps the read pointer and copies out the first item |
| `QueueRing.QueueRing.GenericSend` | src/midware/FreeRTOS/src/queue.c:795-896 | A send passes exactly when there is room or it overwrites; it adds the item and wakes the first waiting receiver |
| `QueueRing.QueueRing.GenericSendFromISR` | src/midware/FreeRTOS/src/queue.c:1017-1144 | The same, but on a locked queue the lock is counted up instead of a task woken; the count must not be saturated when an item goes in |
| `QueueRing.QueueRing.GenericReceive` | src/midware/FreeRTOS/src/queue.c:1343-1382 | A receive passes exactly when there is an item; it returns and removes the first and wakes the first waiting sender |
| `QueueRing.QueueRing.ReceiveFromISR` | src/midware/FreeRTOS/src/queue.c:1831-1923 | The same with the other lock count |
| `QueueRing.QueueRing.GenericPeek` | src/midware/FreeRTOS/src/queue.c:1705-1745 | A peek returns the first item, leaves the queue as it was and hands the wake-up to the next receiver |
| `QueueRing.QueueRing.LockQueue` | src/midware/FreeRTOS/src/queue.c:249-261 | Both counts are locked if they were not |
| `QueueRing.QueueRing.UnlockQueueTx` | src/midware/FreeRTOS/src/queue.c:2230-2305 | One waiting receiver is woken per item that came while locked, until none waits |
| `QueueRing.QueueRing.UnlockQueueRx` | src/midware/FreeRTOS/src/queue.c:2307-2347 | One waiting sender per free place |
| `QueueRing.QueueRing.Reset` | src/midware/FreeRTOS/src/queue.c:264-314 | Empties and unlocks the queue and wakes one waiting sender |
| `QueueModel.SendFits` | src/midware/FreeRTOS/src/queue.c:2126-2206 | A send never overfills a queue, with one exact exception: overwriting a full queue of empty items counts one too many |
| `QueueModel.OverwrittenSemaphore` | src/midware/FreeRTOS/src/queue.c:2126-2206 | Such a queue: a binary semaphore given and then overwritten counts two |
| `QueueRing.ItemSlotIsModulo` | src/midware/FreeRTOS/src/queue.c:2126-2206 | The slot of an item is (last-read slot + 1 + its number) modulo the length |
| `QueueModel.OverwriteReplaces` | src/midware/FreeRTOS/src/queue.c:2186-2199 | On a queue of length one an overwrite always leaves exactly the new item |
| `QueueItems.FirstInFirstOut` | src/midware/FreeRTOS/src/queue.c:771-976 | In every run on a new queue of sends to the back, receives and peeks, by tasks that block, time out and are woken and by interrupts: the items received, followed by those held, are the items sent, in order |
| `QueueItems.NothingLost` | src/midware/FreeRTOS/src/queue.c:2126-2206 | In every run whatsoever the items sent are those received, those held and those thrown away by an overwrite or a reset, each as often |
| `QueueItems.HighestPriorityFirst` | src/midware/FreeRTOS/src/queue.c:2230-2347 | In every run, whatever wakes tasks takes them from the head of a wait list, and none of them has a lower priority than those that stay |
| `QueueItems.EnterAnswers` | src/midware/FreeRTOS/src/queue.c:1318-1458 | The first critical section of a call passes exactly when there is an item, or space or an overwrite; without block time the call ends there, and one that fails changes nothing |
| `QueueItems.TimeOutEndsCall` | src/midware/FreeRTOS/src/queue.c:1400-1458 | A task whose time is over ends its call once the queue is unlocked, a receiver exactly when its last look finds no item |
| `QueueProtocol.NoLostReceiveWakeUp` | src/midware/FreeRTOS/src/queue.c:1343-1457 | In every interleaving of tasks, timeouts, interrupts and resets: while a task waits to receive, the stored items are no more than the receivers taken off the list that have not been back plus the counted lock. Nobody sleeps through an item |
| `QueueProtocol.NoLostSendWakeUp` | src/midware/FreeRTOS/src/queue.c:771-980 | The same for senders and free places: they are covered throughout a run exactly when each of its resets, if it has any, finds at most one waiting sender or a queue no longer than the woken senders plus one |
| `QueueProtocol.ResetCovers` | src/midware/FreeRTOS/src/queue.c:264-314 | A reset keeps senders covered exactly under that condition |
| `QueueProtocol.ResetLosesAWakeUp` | src/midware/FreeRTOS/src/queue.c:264-314 | A run of two blocked senders on a queue of two in which a reset wakes only one of them |
| `QueueProtocol.QuietMeansBlocked` | src/midware/FreeRTOS/src/queue.c:1400-1457 | Once the queue is unlocked and every woken task has been back, tasks wait to receive only on an empty queue and, if all resets were harmless, to send only on a full one |
| `QueueProtocol.StepKeeps` | src/midware/FreeRTOS/src/queue.c:771-980 | Every single step keeps the whole invariant: one lock holder, distinct waiters, calls of the right kind in each list, what was seen under the lock still counted |
| `QueueProtocol.EnterFails` | src/midware/FreeRTOS/src/queue.c:1384-1405 | The critical section at the top of the loop may fail without harm: a queue without items (without space) owes no wake-up |
| `QueueProtocol.EnterSucceeds` | src/midware/FreeRTOS/src/queue.c:1343-1382 | When it goes through, it uses up one wake-up at most for the item or place it takes |
| `QueueProtocol.PeekBalanced` | src/midware/FreeRTOS/src/queue.c:1729-1745 | A peeker takes nothing, so it passes its wake-up on |
| `QueueProtocol.PlaceKeeps` | src/midware/FreeRTOS/src/queue.c:1414-1423 | A task that joins a wait list after it saw the queue empty (full) under the lock misses nothing: what came since is in the lock count |
| `QueueProtocol.UnlockTxKeeps` | src/midware/FreeRTOS/src/queue.c:2230-2305 | Unlocking hands every counted item to a waiting receiver |
| `QueueProtocol.UnlockRxKeeps` | src/midware/FreeRTOS/src/queue.c:2307-2347 | And every counted place to a waiting sender |
| `QueueProtocol.InterruptKeeps` | src/midware/FreeRTOS/src/queue.c:1017-1144 | An interrupt wakes a task or counts the lock up, never neither while someone waits |
| `QueueProtocol.TimeOutKeeps` | src/midware/FreeRTOS/src/queue.c:1414-1445 | A timeout takes its task off the list without losing the wake-ups of others |
| `RecursiveMutex.MutualExclusion` | src/midware/FreeRTOS/src/queue.c:616-707 | In every interleaving of reads, writes and critical sections of takes and gives: two tasks never hold the mutex together; between its calls a task holds it exactly when it has takes outstanding, and the count says how many |
| `RecursiveMutex.TokenWhenUnheld` | src/midware/FreeRTOS/src/queue.c:616-664 | The token is in the queue exactly when no task holds the mutex or is about to count a take: it returns when the count unwinds to zero |
| `RecursiveMutex.GivesAnswerRight` | src/midware/FreeRTOS/src/queue.c:616-664 | A give is refused exactly when the caller holds nothing, and the send behind a give never finds the queue full |
| `RecursiveMutex.StepKeeps` | src/midware/FreeRTOS/src/queue.c:671-707 | Of all steps exactly one spoils the holder's count: counting a take of a task that already has 2^32 - 1 |
| `RecursiveMutex.AlwaysRightExactly` | src/midware/FreeRTOS/src/queue.c:616-707 | In any run, whatever is interleaved, the holder finds its count right between its calls throughout exactly when no take is counted at that bound |
| `RecursiveMutex.TakeCountsExactly` | src/midware/FreeRTOS/src/queue.c:671-707 | A take by the holder leaves the count right exactly when the holder had fewer than 2^32 - 1 takes before the call |
| `RecursiveMutex.WrapGivesAway` | src/midware/FreeRTOS/src/queue.c:616-707 | What comes of it: a task that takes once more than the 32-bit count holds gives the mutex away with its first give |
| `StreamInterleaving.ReceivedThenHeldIsSent` | src/midware/FreeRTOS/src/stream_buffer.c:1131-1235 | One writer and one reader, interleaved between sampling the other index, copying single bytes in any order and publishing their own index: bytes received followed by bytes held are always the bytes sent |
| `StreamInterleaving.CallersBytesInOrder` | src/midware/FreeRTOS/src/stream_buffer.c:700-749 | The same for the callers: at every moment the bytes received followed by those held are the first bytes of what each send was given, as many as it returned, send by send; the one under way copies as many of its first bytes as there was space |
| `StreamInterleaving.WriterNeverOverwrites` | src/midware/FreeRTOS/src/stream_buffer.c:1131-1177 | The slots a writer is filling never hold an unread byte |
| `StreamInterleaving.NothingIsHeldBack` | src/midware/FreeRTOS/src/stream_buffer.c:700-749 | The copies always fit the buffer, whatever was sampled |
| `StreamInterleaving.RegionGrows` | src/midware/FreeRTOS/src/stream_buffer.c:1131-1177 | Publishing the head makes exactly the copied bytes readable |
| `StreamInterleaving.RegionLength` | src/midware/FreeRTOS/src/stream_buffer.c:483-505 | The space and byte counts computed from the indices are those of the held region |
| `MessageInterleaving.WholeMessages` | src/midware/FreeRTOS/src/stream_buffer.c:700-749 | One writer and one reader of a message buffer, interleaved at every sampling and publishing of an index: when every receive has room for every message and nobody peeks, the messages received are the first of those accepted, whole and in order, and no write is without room |
| `MessageInterleaving.ReceivedInOrder` | src/midware/FreeRTOS/src/stream_buffer.c:958-1007 | The same for any receives and peeks whose restores of the tail fit with the bytes held and what the writer has still to store, with what the bytes between the indices are |
| `MessageInterleaving.AcceptedWereOffered` | src/midware/FreeRTOS/src/stream_buffer.c:700-749 | In every run the accepted messages are some of those given to the sends, unchanged and in that order |
| `MessageInterleaving.RoomExactly` | src/midware/FreeRTOS/src/stream_buffer.c:984-992 | The bytes held and what the writer has still to store fit the buffer throughout a run exactly when each length put back fits with the two at the moment before |
| `MessageInterleaving.RestoreLosesRoom` | src/midware/FreeRTOS/src/stream_buffer.c:984-992 | For each buffer length a run in which a receive with too small a buffer restores the tail after the writer has seen the space: both messages fit, and the restore is harmless, exactly when the buffer holds the ten bytes of the two |
| `MessageInterleaving.PeekAssertExactly` | src/midware/FreeRTOS/src/stream_buffer.c:868-890 | The assert on an empty buffer is right exactly when a whole message is in the buffer or no length without its message |
| `MessageInterleaving.PeekSeesHalf` | src/midware/FreeRTOS/src/stream_buffer.c:868-890 | A run in which it is not |
| `MessageCopies.WholeMessagesCopied` | src/midware/FreeRTOS/src/stream_buffer.c:700-749 | The same writer and reader with every byte of a length or a message copied on its own, in any order, between any steps of the other: when every receive has room for every message and nobody peeks, the messages received are the first of those accepted, whole and in order |
| `MessageCopies.CopiedInOrder` | src/midware/FreeRTOS/src/stream_buffer.c:958-1007 | The same for any receives and peeks whose restores fit, with what the bytes in the ring between the indices are |
| `MessageCopies.AcceptedWereOffered` | src/midware/FreeRTOS/src/stream_buffer.c:700-749 | So are they byte by byte |
| `MessageCopies.NothingOverwritten` | src/midware/FreeRTOS/src/stream_buffer.c:1131-1177 | The slots that the writer is filling never hold an unread byte, nor a byte of a length that may still be put back and fits |
| `MessageCopies.RunRefines` | src/midware/FreeRTOS/src/stream_buffer.c:1131-1235 | Every run byte by byte whose restores fit is a run of whole copies on the bytes between the indices |
| `StreamBuffer.WriteAppends` | src/midware/FreeRTOS/src/stream_buffer.c:1131-1177 | A write in two parts around the end of the buffer appends |
| `StreamBuffer.ReadTakes` | src/midware/FreeRTOS/src/stream_buffer.c:1180-1235 | A read in two parts takes the first bytes and leaves the others |
| `StreamBuffer.StreamBuffer.constructor` | src/midware/FreeRTOS/src/stream_buffer.c:220-290 | A buffer that is to hold n bytes gets n + 1 |
| `StreamBuffer.StreamBuffer.BytesInBuffer` | src/midware/FreeRTOS/src/stream_buffer.c:1238-1256 | Counts the bytes held |
| `StreamBuffer.StreamBuffer.SpacesAvailable` | src/midware/FreeRTOS/src/stream_buffer.c:483-505 | Counts the free bytes: the length less one less the bytes held |
| `StreamBuffer.StreamBuffer.WriteBytes` | src/midware/FreeRTOS/src/stream_buffer.c:1131-1177 | Copies in place and appends to what is held |
| `StreamBuffer.StreamBuffer.ReadBytes` | src/midware/FreeRTOS/src/stream_buffer.c:1180-1235 | Returns and removes the smaller of the wanted and the available bytes |
| `StreamBuffer.StreamBuffer.SendNow` | src/midware/FreeRTOS/src/stream_buffer.c:649-749 | A stream stores the first bytes of the data, as many as there is space for, behind those held and says how many; a message buffer all or nothing |
| `StreamBuffer.StreamBuffer.ReadMessage` | src/midware/FreeRTOS/src/stream_buffer.c:958-1007 | Returns the next message whole, or puts its length back by restoring the tail when it is too long for the caller |
| `StreamBuffer.StreamBuffer.ReceiveNow` | src/midware/FreeRTOS/src/stream_buffer.c:901-956 | A stream returns and removes the first bytes held, as many as the caller has room for; a message buffer the first message whole or nothing |
| `StreamBuffer.StreamBuffer.NextMessageLengthBytes` | src/midware/FreeRTOS/src/stream_buffer.c:856-898 | Looks at the next length and leaves the buffer as it was |
| `StreamBuffer.StreamBuffer.IsEmpty` | src/midware/FreeRTOS/src/stream_buffer.c:1010-1031 | Empty exactly when no byte is held |
| `StreamBuffer.StreamBuffer.IsFull` | src/midware/FreeRTOS/src/stream_buffer.c:1034-1066 | Full exactly when no non-empty send would be accepted |
| `StreamBuffer.StreamBuffer.Reset` | src/midware/FreeRTOS/src/stream_buffer.c:404-450 | Empties the buffer, or refuses exactly while a task waits on it |
| `StreamModel.MessagesInOrder` | src/midware/FreeRTOS/src/stream_buffer.c:700-749 | For every run of sends of non-empty messages that fit the length type and receives with any room: the receives return exactly the accepted messages, whole and in order, the buffer frames the rest, and space plus bytes stays the length less one |
| `StreamModel.BytesInOrder` | src/midware/FreeRTOS/src/stream_buffer.c:700-749 | For every run of sends and receives on a byte stream: what the receives returned, followed by what is held, is what the sends said is stored of the data given to them, byte for byte and in order |
| `StreamModel.SendStoresPrefix` | src/midware/FreeRTOS/src/stream_buffer.c:716-742 | A send to a byte stream stores as many of the first bytes as fit, behind those held, and returns their number |
| `StreamModel.ReceiveTakesFirst` | src/midware/FreeRTOS/src/stream_buffer.c:958-1007 | A receive takes as many of the first bytes as the caller has room for and leaves the others |
| `StreamModel.SendKeepsFrames` | src/midware/FreeRTOS/src/stream_buffer.c:700-749 | A send stores the whole message exactly when there is space for it and its length, otherwise it changes nothing and says so |
| `StreamModel.ReceiveTakesFrame` | src/midware/FreeRTOS/src/stream_buffer.c:958-1007 | A receive takes the first message whole, or changes nothing when there is none or it is too long for the caller |
| `StreamModel.NextLength` | src/midware/FreeRTOS/src/stream_buffer.c:856-898 | The next length reported is that of the first message, zero when there is none |
| `StreamModel.OversizeIsCut` | src/midware/FreeRTOS/src/stream_buffer.c:722-731 | A message alone in the buffer comes back whole exactly when its length fits the length type: no send checks that |
| `Bytes.CodeRoundTrip` | src/midware/FreeRTOS/src/stream_buffer.c:722-731 | A number survives little-endian encoding in n bytes exactly when it is below 256^n |
| `Bytes.ByteAt` | src/midware/FreeRTOS/src/stream_buffer.c:722-731 | Byte k of an encoded number is its digit k to the base of 256: the order of a little-endian machine |
| `EventGroups.NobodyWaitsInVain` | src/midware/FreeRTOS/src/event_groups.c:315-468 | After any run of sets, clears, waits, rendezvous, timeouts and resumptions no task waits for bits that are there, and a woken task returns bits that meet its call |
| `EventGroups.LeftExactly` | src/midware/FreeRTOS/src/event_groups.c:531-623 | A set leaves waiting exactly the tasks that the old bits with the new ones do not satisfy |
| `EventGroups.ClearMaskExactly` | src/midware/FreeRTOS/src/event_groups.c:531-623 | The bits to be cleared are exactly those that some satisfied task waited for with clear on exit |
| `EventGroups.SetBitsExactly` | src/midware/FreeRTOS/src/event_groups.c:531-623 | After a set a bit is there exactly when it was or was to be set and no task that is woken clears it on exit |
| `EventGroups.WaitAnswers` | src/midware/FreeRTOS/src/event_groups.c:315-441 | A wait answers at once exactly when it is met or may not block; if it is met and clears on exit none of its bits stay and all others do; one that blocks changes no bit |
| `EventGroups.SyncAnswers` | src/midware/FreeRTOS/src/event_groups.c:192-312 | A rendezvous answers at once exactly when its bits are complete or it may not block; complete bits are returned and none of them stays |
| `EventGroups.ResumeAnswers` | src/midware/FreeRTOS/src/event_groups.c:397-468 | A woken task returns the bits of that moment; one whose time was over looks again, and if it is met after all and clears on exit none of its bits stay and all others do |
| `EventGroups.NobodyForgotten` | src/midware/FreeRTOS/src/event_groups.c:315-468 | After any run a task that has blocked is in the list with its call or can run again, and not both |
| `EventGroups.WokenExactly` | src/midware/FreeRTOS/src/event_groups.c:531-623 | It hands the bits of the moment to exactly the satisfied tasks |
| `EventGroups.StepKeeps` | src/midware/FreeRTOS/src/event_groups.c:192-468 | Every operation keeps the invariant behind these |
| `EventGroupObject.EventGroup.SetBits` | src/midware/FreeRTOS/src/event_groups.c:531-623 | The walk over the list, removing as it goes, judges every waiter by the same bits and defers the clearing; a bit is left exactly when it was there or set and no waiter that goes clears it, and what is left is returned |
| `EventGroupObject.EventGroup.WaitBits` | src/midware/FreeRTOS/src/event_groups.c:315-405 | Returns at once, clearing if asked to, or blocks |
| `EventGroupObject.EventGroup.Sync` | src/midware/FreeRTOS/src/event_groups.c:192-250 | Sets, then returns with the mask cleared when it was complete, or blocks |
| `EventGroupObject.EventGroup.ClearBits` | src/midware/FreeRTOS/src/event_groups.c:471-496 | Clears and returns the bits before |
| `EventGroupObject.EventGroup.Resume` | src/midware/FreeRTOS/src/event_groups.c:407-468 | What a task returns when it runs again, with the second look after a timeout |
| `EventGroupObject.EventGroup.TimeOut` | src/midware/FreeRTOS/src/event_groups.c:407-440 | A timeout leaves the item value without the unblocked mark |
| `EventWordRuns.SetInWords` | src/midware/FreeRTOS/src/event_groups.c:531-623 | On 32-bit words, with bits and control flags of an item in one word: the walk leaves, wakes and clears exactly what the operation on sets of bits does, and control bits stay out of the group |
| `EventWordRuns.SetWordExactly` | src/midware/FreeRTOS/src/event_groups.c:531-623 | A bit of the word is set after a set exactly when it was or was to be set and no item that goes clears it |
| `EventWords.ItemUnpacks` | src/midware/FreeRTOS/src/event_groups.c:368-396 | What is packed into the item of a waiting task is what the walk reads from it: the bits, clear on exit, wait for all, and no mark of a wake-up |
| `EventWordRuns.MarkTellsWakeUpFromTimeOut` | src/midware/FreeRTOS/src/event_groups.c:421-459 | In every run of operations on words, waits, rendezvous, timeouts and all: a task that is to run again finds the mark in its item exactly when it was woken for its bits and not when its time was over, and what it returns is what the sets say |
| `EventWordRuns.RunInWords` | src/midware/FreeRTOS/src/event_groups.c:192-623 | Every run on words is the run on sets of bits that they stand for |
| `EventWordRuns.NobodyWaitsInVainInWords` | src/midware/FreeRTOS/src/event_groups.c:531-623 | So in every run on words no task waits for bits that are there |
| `EventWordRuns.WokenReturnsItsBits` | src/midware/FreeRTOS/src/event_groups.c:421-459 | And a task that was woken returns bits for which it was waiting |
| `EventWordRuns.TimeOutInWords` | src/midware/FreeRTOS/src/event_groups.c:421-440 | An item that leaves the list with a timeout carries no mark, because it was packed without one |
| `EventWordRuns.WaitInWords` | src/midware/FreeRTOS/src/event_groups.c:340-405 | A wait on words returns, clears or blocks, and packs its item, as on sets |
| `EventWordRuns.SyncInWords` | src/midware/FreeRTOS/src/event_groups.c:210-250 | So does a rendezvous |
| `EventWordRuns.ResumeInWords` | src/midware/FreeRTOS/src/event_groups.c:407-459 | And what follows a block, with the second look after a timeout |
| `EventWords.MatchIsMet` | src/midware/FreeRTOS/src/event_groups.c:686-718 | The masked comparisons on words are the tests for any bit and for all bits of the set |
| `Barrier.BarrierExactly` | src/midware/FreeRTOS/src/event_groups.c:192-312 | The rendezvous of tasks whose bits make the mask is a barrier in every run (nobody returns before all have come, every return value has the whole mask, the mask is clear between meetings) exactly when every task is needed: the bits of the others never make the mask |
| `Barrier.NeedsAllMakesBarrier` | src/midware/FreeRTOS/src/event_groups.c:192-312 | The direction a user relies on, for any number of meetings and any changes to other bits |
| `Barrier.SameBit` | src/midware/FreeRTOS/src/event_groups.c:192-312 | Two tasks that set the same bit: the first returns while the second has not come |
| `CoRoutineSpec.DelayedWakesOnTime` | src/midware/FreeRTOS/src/croutine.c:161-279 | A co-routine delayed for 1 to 2^32 - 1 ticks that waits for no event is in one list and not ready until it is due, and ready and in no list after just the simulated tick at which it is, in any run and across any number of wraps |
| `CoRoutineSpec.NoneLost` | src/midware/FreeRTOS/src/croutine.c:161-279 | In every run each co-routine that was created is ready or in one of the two lists, never in two places, and waits for an event or is pending only while it is in a list |
| `CoRoutineSpec.TickReadiesExactly` | src/midware/FreeRTOS/src/croutine.c:229-276 | A simulated tick makes ready exactly the listed co-routines whose time has come |
| `CoRoutineSpec.PendingBecomeReady` | src/midware/FreeRTOS/src/croutine.c:200-220 | Looking at the pending co-routines makes exactly them ready and takes them out of both lists |
| `CoRoutineSpec.DelayWaits` | src/midware/FreeRTOS/src/croutine.c:161-197 | A delayed co-routine is in one list until its time, and waits for an event exactly when it asked for one |
| `CoRoutineSpec.EventReadies` | src/midware/FreeRTOS/src/croutine.c:337-367 | In any run a co-routine delayed with an event waits until the event comes or its time; after the event the next look at the pending co-routines finds it ready or readies it |
| `CoRoutineSpec.NoErrorAtWrap` | src/midware/FreeRTOS/src/croutine.c:223-279 | In any run the delayed list is empty whenever the tick count wraps, and every wake-up by the list came at its tick |
| `CoRoutineSpec.DelayKeepsExactly` | src/midware/FreeRTOS/src/croutine.c:161-197 | A delay goes into the list of the wrap its time is in and keeps the invariant exactly when it is not zero |
| `CoRoutineSpec.ZeroDelayAtWrap` | src/midware/FreeRTOS/src/croutine.c:161-197 | A delay of zero ticks just before the wrap leaves an item in the delayed list, the case the source calls an error |
| `CoRoutineSpec.OneTickKeeps` | src/midware/FreeRTOS/src/croutine.c:229-276 | A simulated tick, with its swap and its wake-ups, keeps the invariant |
| `CoRoutines.CoRoutines.AddToDelayedList` | src/midware/FreeRTOS/src/croutine.c:161-197 | Delays in place |
| `CoRoutines.CoRoutines.CheckPendingReadyList` | src/midware/FreeRTOS/src/croutine.c:200-220 | Readies everything an interrupt has made pending |
| `CoRoutines.CoRoutines.WakeExpired` | src/midware/FreeRTOS/src/croutine.c:248-275 | Readies from the head of the list up to the first co-routine that is not due |
| `CoRoutines.CoRoutines.PassTick` | src/midware/FreeRTOS/src/croutine.c:229-246 | Counts one tick, swaps the lists when the count wraps to zero, and wakes |
| `CoRoutines.CoRoutines.CheckDelayedList` | src/midware/FreeRTOS/src/croutine.c:223-279 | Catches up tick by tick to the kernel's count, from the wrapped difference |
| `CoRoutineSpec.CatchUpIsRun` | src/midware/FreeRTOS/src/croutine.c:223-279 | Catching up is a run of that many ticks, so the theorems on runs hold of it |
| `CoRoutines.CoRoutines.AddToReadyQueue` | src/midware/FreeRTOS/src/croutine.c:66-73 | No ready list above the top priority ever has members |
| `CoRoutines.CoRoutines.SelectNext` | src/midware/FreeRTOS/src/croutine.c:292-310 | Selects a ready co-routine of the highest priority there is, or none when none is ready |
| `CoRoutines.CoRoutines.Schedule` | src/midware/FreeRTOS/src/croutine.c:282-314 | The whole pass of the scheduler up to the call of the co-routine |
| `LookupTable.CharacteristicCurve.GetY` | src/app/lookup_table/inc/lookup_table.hpp:59-92 | The scan in `int32_t`: the value, or an overflow on the way |
| `LookupTable.ExactAtKnots` | src/app/lookup_table/inc/lookup_table.hpp:59-92 | With increasing x the curve, computed without overflow, goes through its knots |
| `LookupTable.StaysBetween` | src/app/lookup_table/inc/lookup_table.hpp:74-87 | Between two knots it stays between their values, in spite of the truncation |
| `LookupTable.YOnTheLine` | src/app/lookup_table/inc/lookup_table.hpp:59-92 | Between two knots the curve is the straight line through them, cut off to a whole number towards the first |
| `LookupTable.XOnTheLine` | src/app/lookup_table/inc/lookup_table.hpp:95-121 | What get_x answers is on that line, cut off in the same way, in the first segment that has the value |
| `LookupTable.CurveMonotone` | src/app/lookup_table/inc/lookup_table.hpp:59-92 | Rising tables give rising curves and falling tables falling ones, over all x |
| `LookupTable.CharacteristicCurve.GetX` | src/app/lookup_table/inc/lookup_table.hpp:95-121 | The scan for the inverse in `int32_t`, likewise |
| `LookupTable.InverseErrorBound` | src/app/lookup_table/inc/lookup_table.hpp:95-121 | For every y from the smallest value of the table up to the largest, that one excluded: get_y(get_x(y)) lies between the start value of a segment that crosses y and y, at most ceil((height - 1) / width) away. The table need not be monotone |
| `LookupTable.OutsideIsZero` | src/app/lookup_table/inc/lookup_table.hpp:118-120 | Outside that range get_x answers zero |
| `LookupTable.FitsYExactly` | src/app/lookup_table/inc/lookup_table.hpp:59-92 | get_y in `int32_t` is the curve for every x exactly when in each segment the width, the height and height * (width - 1) fit |
| `LookupTable.FitsXExactly` | src/app/lookup_table/inc/lookup_table.hpp:95-121 | On rising or falling tables get_x in `int32_t` is the inverse for every y exactly when in each segment that is not flat the width, the height and the largest product fit: (height - 1) * width in a rise, height * width in a fall |
| `LookupTable.FitsXOnAnyTable` | src/app/lookup_table/inc/lookup_table.hpp:95-121 | On any table with increasing x it is so exactly when the one product of each segment fits at the furthest of its values that no earlier segment has |
| `LookupTable.X32Exact` | src/app/lookup_table/inc/lookup_table.hpp:95-121 | That every segment fits is enough on any table |
| `LookupTable.InverseErrorBound32` | src/app/lookup_table/inc/lookup_table.hpp:59-121 | On a table that fits both ways the error bound holds of the `int32_t` code |
| `LookupTable.WideFlatOverflows` | src/app/lookup_table/inc/lookup_table.hpp:79 | A flat segment as wide as the type overflows in get_y, though its curve is zero and get_x is right |
| `LookupTable.DefaultCurvesExact` | src/app/dataset/src/dataset.cpp:153-190 | The two default curves are computed without overflow whatever is looked up |
| `LookupTable.DefaultPercentages` | src/app/dataset/src/dataset.cpp:157-172 | The default fuel curve gives -10 to 115 percent |
| `DatasetCodec.StoreLoadRoundTrip` | src/app/dataset/src/dataset.cpp:7-151 | A successful write to a section of at least 300 bytes is read back exactly, curves, scalars and version, whatever the section and the reader held before |
| `DatasetCodec.StoredApart` | src/app/dataset/src/dataset.cpp:18-74 | Nothing a successful write stores overlaps anything else it stores |
| `DatasetCodec.StoreSucceeds` | src/app/dataset/src/dataset.cpp:46-74 | It succeeds when neither curve has more than eleven knots, and otherwise answers that there is not enough memory |
| `DatasetCodec.StoreKeepsRest` | src/app/dataset/src/dataset.cpp:18-74 | Outside the header, the version, the scalars and the two curves a write leaves the section as it was, also when it fails |
| `DatasetCodec.LoadSucceeds` | src/app/dataset/src/dataset.cpp:99-150 | A section is loaded exactly when it is long enough, begins with the header, is of no newer version and says of both curves that they end inside it |
| `DatasetCodec.LoadRefuses` | src/app/dataset/src/dataset.cpp:94-117 | A section too short or with another header changes nothing, one of a newer version only the version read, each with its code |
| `DatasetCodec.CurveRoundTrip` | src/app/lookup_table/inc/lookup_table.hpp:182-235 | from_bytes undoes to_bytes for every curve, wherever the bytes stand |
| `DatasetObject.ToBytes` | src/app/lookup_table/inc/lookup_table.hpp:182-202 | The moving write pointer fills the buffer with the count and the knots |
| `DatasetObject.FromBytes` | src/app/lookup_table/inc/lookup_table.hpp:204-235 | The moving read pointer reads them, or nothing when the count does not fit the buffer |
| `DatasetObject.Dataset.Write` | src/app/dataset/src/dataset.cpp:7-76 | Writes the section in place as the round trip says, with its error codes |
| `DatasetObject.Dataset.Load` | src/app/dataset/src/dataset.cpp:79-151 | Loads it, passing on the error of the read and keeping what was read before an error |
| `Averaging.FilterOutliers` | src/midware/util_algorithms/inc/util_algorithms.hpp:63-106 | The loop that removes outliers ends and computes the filter the next rows are about |
| `Averaging.KeptSays` | src/midware/util_algorithms/inc/util_algorithms.hpp:63-106 | The filter answers the mean of some of the readings, at least three if there are so many; when more are left its gap is below the limit |
| `Averaging.OutlierSays` | src/midware/util_algorithms/inc/util_algorithms.hpp:73-88 | What is removed is a reading furthest from the average, the first of them |
| `Averaging.SpreadExactly` | src/midware/util_algorithms/inc/util_algorithms.hpp:63-106 | For any readings, the gap returned is the spread of the readings that are averaged exactly if: with up to three they are equal; in a pass that removes none the last is the lowest; in the pass that leaves three their spread is the distance of the last of the four from the highest |
| `Averaging.SpreadNotMore` | src/midware/util_algorithms/inc/util_algorithms.hpp:63-106 | With up to three readings, or more than three left, the gap is never more than that |
| `Averaging.StaleGap` | src/midware/util_algorithms/inc/util_algorithms.hpp:69-104 | When three are left of more, the gap is that of four readings, one of which is not averaged, and at the limit or above |
| `Averaging.StaleGapTooLarge` | src/midware/util_algorithms/inc/util_algorithms.hpp:69-104 | Three equal readings are left and the gap is 1000 |
| `Averaging.StaleGapTooSmall` | src/midware/util_algorithms/inc/util_algorithms.hpp:69-104 | Three readings 3400 apart are left and the gap is 400 |
| `Averaging.HighestLastPasses` | src/midware/util_algorithms/inc/util_algorithms.hpp:75-97 | Of more than three readings it keeps all with gap zero exactly when the last is the highest |
| `Averaging.RisingLooksEqual` | src/midware/util_algorithms/inc/util_algorithms.hpp:63-106 | Readings of 0, 30, 60 and 90 percent are averaged with a spread of zero |
| `Averaging.FilterWithin` | src/midware/util_algorithms/inc/util_algorithms.hpp:63-106 | The average lies between the readings and its gap between zero and their spread |
| `Averaging.WeightedBetween` | src/midware/util_algorithms/inc/util_algorithms.hpp:39-60 | The weighted average lies between the averages, in spite of the truncation |
| `Averaging.WeightIsRepetition` | src/midware/util_algorithms/inc/util_algorithms.hpp:40-60 | An average counts as often as its weight says: so many of weight one in its place give the same |
| `Averaging.GetWeightedAverage` | src/midware/util_algorithms/inc/util_algorithms.hpp:39-60 | The loop over values and weights computes it |
| `FuelGauge.DisplayNeverRises` | src/app/fuel_gauge_input/src/fuel_gauge_input.cpp:176-266 | For as long as the gauge stays in normal operation a display that is not negative only falls, whatever is read |
| `FuelGauge.DisplayRisesExactly` | src/app/fuel_gauge_input/src/fuel_gauge_input.cpp:230-247 | A cycle in normal operation raises the display exactly when it is negative and due for a step down: the step ends at zero |
| `FuelGauge.StepsDownExactly` | src/app/fuel_gauge_input/src/fuel_gauge_input.cpp:206-247 | The display steps down on the sixth slightly lower average that counts, and also, because the unsigned counter is taken below zero, on an average that is not lower while low averages are being forgotten |
| `FuelGauge.CounterBelowZero` | src/app/fuel_gauge_input/src/fuel_gauge_input.cpp:230-247 | Readings from 0 to 100 percent that lead there from the start: at 42 percent displayed a mean of 41.57 makes the display step down to 41.5 |
| `FuelGauge.NegativeDisplayRises` | src/app/fuel_gauge_input/src/fuel_gauge_input.cpp:230-247 | Readings on which a display of -1 percent rises to zero in normal operation |
| `FuelGauge.DisplayInRangeFromStart` | src/app/fuel_gauge_input/src/fuel_gauge_input.cpp:77-267 | In every run the display lies within any bounds that hold all the readings and zero |
| `FuelGauge.RefillNeedsHighs` | src/app/fuel_gauge_input/src/fuel_gauge_input.cpp:139-266 | In every run a refill is reported only after more than 30 high averages since normal operation was entered, a loss only after more than 30 low ones, whatever else is interleaved |
| `FuelGauge.HighsReportRefill` | src/app/fuel_gauge_input/src/fuel_gauge_input.cpp:181-262 | In a run whose new averages are all high the counter is their number, the display stays, and a refill is reported with the thirty-first and not before |
| `FuelGaugeRuns.LowsReportLoss` | src/app/fuel_gauge_input/src/fuel_gauge_input.cpp:181-262 | In a run whose new averages are all low a loss is reported with the thirty-first of them, not before, and the display stays |
| `FuelGaugeRuns.NearsForget` | src/app/fuel_gauge_input/src/fuel_gauge_input.cpp:181-262 | New averages near the display take two each off both counters, as far as there are two, and lead to no error |
| `FuelGaugeRuns.CycleCounts` | src/app/fuel_gauge_input/src/fuel_gauge_input.cpp:181-262 | In normal operation each new average counts one counter up or both down, and an error is reported in just the cycle in which a counter passes the threshold |
| `FuelGaugeRuns.ShowsAfterError` | src/app/fuel_gauge_input/src/fuel_gauge_input.cpp:140-290 | In every run, when a refill or a loss is reported, the next new average and the cycle behind it bring the display to the weighted average and the gauge to normal operation with nothing counted |
| `FuelGaugeRuns.ErrorLeft` | src/app/fuel_gauge_input/src/fuel_gauge_input.cpp:262-290 | An error state lasts until the next new average and is then left for calibration, showing what it has shown |
| `FuelGaugeRuns.NewestAreKept` | src/app/fuel_gauge_input/src/fuel_gauge_input.cpp:100-140 | In every run the averages kept are the last nine made and the readings kept the newest |
| `FuelGauge.FuelGaugeInput.Cycle100ms` | src/app/fuel_gauge_input/src/fuel_gauge_input.cpp:77-302 | The whole cycle in place: the average, calibration, then the state machine on a new average |
| `FuelGauge.FuelGaugeInput.Operate` | src/app/fuel_gauge_input/src/fuel_gauge_input.cpp:181-267 | The counters and thresholds of normal operation |
| `FuelGauge.BuffersBounded` | src/app/fuel_gauge_input/src/fuel_gauge_input.cpp:99-136 | In every run fewer than ten readings and at most nine averages are kept, also while readings are thrown away because they make no sense |
| `FuelGauge.FuelGaugeInput.UpdateAverages` | src/app/fuel_gauge_input/src/fuel_gauge_input.cpp:99-136 | A new average is taken from ten readings that make sense, otherwise the oldest reading is dropped |
| `CanFilter.CanIf.FindPdu` | src/can_stack/CanIf/CanIf.c:633-645 | The halving loop ends; in any order it finds nothing but a PDU with the id, and on strictly descending ids it answers like a linear scan |
| `CanFilter.LastNotBelow` | src/can_stack/CanIf/CanIf.c:633-645 | Why: on descending ids the one looked for can only be the last that is not below it |
| `CanFilter.ScanSays` | src/can_stack/CanIf/CanIf.c:645-649 | The scan finds the first PDU with the id, or there is none |
| `CanFilter.CanIf.RxIndication` | src/can_stack/CanIf/CanIf.c:612-651 | A frame reaches the one PDU with its id and no other, the only PDU of an unfiltered receiver, or nobody |
| `CanFilter.CanIf.LPduReceived` | src/can_stack/CanIf/CanIf.c:565-607 | An offline controller discards it, otherwise the PDU's indication gets the data |
| `CanFilter.ReceivedExactly` | src/can_stack/CanIf/CanIf.c:565-651 | A frame for a PDU of an ordered receiver reaches just that PDU with its data when its controller is not offline and it has an indication, and is discarded otherwise; a frame for none of its PDUs reaches nobody |

## Left out

- Task scheduling, priorities and priority inheritance, heap allocation, queue sets, the queue registry, tracing and the
  static allocation variants: wait lists are sequences of tasks, woken from the head.
- The timer status bits, `xTimerIsTimerActive`, `vTimerSetReloadMode` and the freeing of deleted timers: list membership
  and callbacks are stated instead. A pended function call is one command without effect on timers.
- TimerDaemon.Daemon.ProcessReceivedCommands: the loop is given the ticks it reads and stops when they run out, because
  callbacks may post commands forever.
- Blocking inside one call of a stream buffer: send and receive without waiting, and in `StreamInterleaving` any number
  of samples before the copy. Task notifications and trigger levels are not modelled.
- StreamInterleaving.ReceivedThenHeldIsSent: byte streams only; `MessageInterleaving` and `MessageCopies` have messages.
- MessageCopies.CopiedInOrder: a restore that does not fit ends what is said about the run. Memory is sequentially
  consistent, as it is on the one core of the target.
- Stream buffers so long that the index arithmetic overflows `size_t`.
- EventGroupObject.EventGroup.SetBits: the value returned is read again after the scheduler has resumed, when other
  tasks may have changed it; nothing comes between here.
- QueueRing.QueueRing.CopyDataToQueue: not for a mutex; the branch that clears the holder is in `RecursiveMutex`.
- CoRoutines.CoRoutines.SelectNext: leaves open which co-routine of equal priority runs next; the walk that decides it
  is `KernelList.List.GetOwnerOfNextEntry`.
- CoRoutines.CoRoutines.Schedule: the same.
- DatasetObject.FromBytes: the size checks of `from_bytes` and `load_dataset` on sections that `write_dataset` did not
  write are in unbounded integers; on the target a huge count or size can wrap them.
- FuelGauge.FuelGaugeInput.Cycle100ms: starts from the percentage. The ADC conversion and the voltage divider, which
  divides by zero when the pin reads the supply voltage, are left out.
- Averaging.FilterOutliers: sums in unbounded integers; the `int32_t` sum of ten readings holds while they are below
  2^27 in size.
- In `CanIf.c` everything but the receive path: initialisation, transmission, mode changes and the disabled options.
- HAL drivers, `Can.c`, console, editor, tracing, PWM, speed sensor, EOL data and IMA data provider: device access, user
  interface or simple copies.
