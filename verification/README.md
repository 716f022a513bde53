# A verified model of the zincio runtime core

zincio is a single-threaded asynchronous runtime: an executor with three ready queues, a hierarchical
timing wheel, a readiness driver (mio) and a completion driver (io_uring), with a few stream and time
adapters on top. This project models the parts in which state is kept over unbounded histories, and
proves what every step and every run of them keeps.

Each component has a pure specification (a state, its steps, an invariant, theorems over all runs)
and, where the program updates an object in place, a class whose methods are proved to take exactly
the steps of the specification.

| file | what it models |
|---|---|
| `WakeProtocol.dfy`, `WakeHistory.dfy` | `block_on` and the wakers of other threads, one shared access per step; what the history kept there means |
| `ReadyQueues.dfy` | the ready queues as the scheduler thread updates them |
| `WaitBounds.dfy`, `WakeToPoll.dfy`, `Starvation.dfy` | how long a woken task waits for its poll; from a waker call to that poll; when there is no bound |
| `WheelSpec.dfy`, `WheelLayout.dfy`, `TimingWheel.dfy` | the timing wheel: a table of timers; levels, slots and lists; the class that refines the table |
| `TimerSpec.dfy`, `Timer.dfy` | real deadlines over wheel ticks |
| `SleepSpec.dfy`, `Sleep.dfy` | any number of `Sleep` futures over the timers of any number of runtimes; the future as a class |
| `MioSpec.dfy`, `MioDriver.dfy` | the readiness driver beside an edge-triggered kernel |
| `UringKeys.dfy`, `UringPolls.dfy`, `UringOps.dfy`, `UringDriver.dfy`, `ReadOp.dfy` | packed keys; one-shot polls; the completion slab and who owns a buffer; the driver; a read operation |
| `AsyncWrapSpec.dfy`, `AsyncWrap.dfy` | the buffering adapter between two families of stream traits |
| `PumpSpec.dfy`, `Sendfile.dfy` | the two pumps from a file to a socket |
| `IntervalSpec.dfy`, `Interval.dfy` | periodic ticks |

`dafny verify dfyconfig.toml` checks the whole project.

## Assumptions

- Atomic accesses are sequentially consistent. The program uses acquire, release and relaxed orderings.
- The driver's interrupt is sticky: raised before a wait, it ends that wait.
- Ticks, generations and instants are unbounded integers; where a u64 limit decides a branch (the delay
  of a timer, the counts of an interval, the packed keys) it is written out.
- Clock readings, vacant slab keys, outcomes of system calls and answers of wrapped objects are
  parameters or arbitrary choices. The clock is monotone.
- The mio kernel is edge-triggered: arming queues an event for a side that is already ready, and a
  delivery reports at least what is queued and still ready, each handle at most once per poll.
- The io_uring kernel completes each submission exactly once, in any order.
- A pipe has a fixed number of slots; a splice from a file fills new slots and waits while there is none, even
  at the end of the file. With a free slot it returns 0 only at the end of the file, as `sendfile` does.
- A binary heap is the set of its elements with a least element; the 7 x 64 slot vectors are 448
  numbered lists; a waker is an identifier, and waking the same task means having the same identifier.

## Where the code differs from what its comments or its name suggest

- A wheel slot is chosen by remaining delay and swept by absolute tick, so a timer can be late by up to
  62 ticks if it is inserted for the current tick (`WheelSpec.FiringWindow`, tight by `WheelSpec.WindowIsTight`), and
  by up to 61 if it is inserted for a later one, as `Timer` always does (`TimerSpec.TimerWindow`, tight by
  `TimerSpec.TimerWindowIsTight`). A timer inserted at tick p for a later
  tick p + d is returned by the advance that reaches p + d, whatever happens in between, if and only if p is a
  multiple of 64 and d < 64, or p is one more than a multiple of 64 and d = 1 (`WheelSpec.PromptIff`).
- Every spin drops the fraction of a millisecond that has passed, so spins less than a millisecond apart
  never advance the wheel (`TimerSpec.SpinLag`, `TimerSpec.FastSpinsFreeze`).
- A `Sleep` whose delay does not fit in 64 bits of milliseconds is ready at once: at its first poll by
  default, after its one yield if it yields, and at any repeated poll inside the runtime
  (`SleepSpec.EarlyIff`, `SleepSpec.HugeSleepIsEarly`).
- The wait in the main queue is bounded if and only if the batch is larger than the inline queue of 8
  (`WaitBounds.ServedWithinDrains`, `Starvation.SmallBatchStarvesRuns`, `Starvation.BoundedIff`).
- An interest in both sides is polled on the write side with the mask of whichever poll is already
  armed there (`UringPolls.MixedInterest`, `UringPolls.MixedInterestReached`). The operations of this repository
  ask for one side at a time, so only a caller outside it can get there; the mask is kept by the kernel, not
  by the driver.
- The key of token 2^62 - 1 on the write side is one of the two reserved values (`UringKeys.ReservedIff`).
- A tick with less than a millisecond left yields once and completes, so it may be early by less than that
  (`IntervalClass.TickNotEarly`, `IntervalClass.TickMayBeEarly`).
- `CatchUp` returns every missed tick but schedules the next one a period too late, so one lattice point
  is lost per late tick (`IntervalSpec.AllTickedIffOnTime`, `IntervalSpec.CatchUpPassesOne`).
- A write polled again with another buffer goes on with the first one, and reports more bytes than the
  new buffer has if and only if the first was longer (`AsyncWrapSpec.CountExceedsIff`,
  `AsyncWrapSpec.CountExceeds`).
- A read dropped while it waits leaves its buffer with the driver only where its own runtime is the current one.
  The buffer of a submission in flight is with its operation or the driver if and only if the operation was
  not dropped elsewhere (`UringOps.BufferOutlivesSubmission`, `UringOps.OrphanReached`): outside `block_on`, or
  among the tasks still queued when a `Runtime` is dropped, whose guard holds the current runtime borrowed while
  the queues go. A read of another runtime dropped inside this one abandons whatever entry has its token here
  (`UringOps.ForeignDropStrands`).
- A `Sleep` polled again or reset inside a runtime cancels in the timer of that runtime, not in the one it has
  stored. If it always finds its own there, a pending sleep stays armed (`SleepSpec.LoyalStaysArmed`); a step of
  another sleep disarms it if and only if it presents the very same handle to the very same timer
  (`SleepSpec.ArmedStepIff`), which happens across two runtimes (`SleepSpec.DisloyalStrands`).
- The splice pump asks the file for more before it drains the pipe, so over a pipe whose slots are all in
  use, the first of them partly sent, it waits for itself. Some outcomes of its calls lead there if and only if
  both the length asked for, less one, and the file exceed the number of slots and the first request fits
  in 32 bits (`PumpSpec.StallIff`, `PumpSpec.RoomIff`). This is the worst case over kernels: a slot may hold
  any number of bytes from one on, and one that fills whole pages stalls only on longer transfers. It is for pipes with fewer slots than the largest
  `usize`, as all are whose slots take memory; with requests of one byte nothing stalls
  (`PumpSpec.OneByteNeverStalls`).
- A transfer of 2^32 bytes or more by splice, on a platform that can express the length, fails before anything
  is sent (`Sendfile.SendfileExactCompletion`).

## Model

| member | source | states |
|---|---|---|
| `WakeProtocol.QueueMembershipExact` | zincio/src/task.rs:81-125 | in every reachable interleaving each task occurs at most once over the three queues and the pushes under way; its `queued` flag is set if and only if it is in a queue, about to be pushed or just popped; the inline queue holds at most 8 |
| `WakeProtocol.NoLostWake` | zincio/src/executor.rs:832-844 | a task woken since its latest poll began is complete, in the batch, in a queue, mid-push or just popped |
| `WakeProtocol.NoStuckSleep` | zincio/src/executor.rs:796-830 | if the scheduler is parked with the remote queue non-empty or the root ready, the interrupt is set or a thread that published its wake has still to decide about it |
| `WakeProtocol.QuietSleepIsInterrupted` | zincio/src/executor.rs:796-830 | with no waker call in progress, a scheduler parked over an unserved wake has its interrupt set |
| `WakeProtocol.WakersAlwaysInterrupt` | zincio/src/task.rs:106-119 | from a state of the invariant, the threads inside waker calls end within a bounded number of steps, and then a parked scheduler with an unserved wake is interrupted |
| `WakeProtocol.SleepIsCutShort` | zincio/src/executor.rs:215-224 | the same from every reachable state |
| `WakeProtocol.QueuesStep` | zincio/src/task.rs:81-110 | every step of every thread keeps flags and queue membership in agreement |
| `WakeProtocol.WakesStep` | zincio/src/executor.rs:832-844 | every step keeps each unanswered wake recorded, also between a pop and the clearing of the flag |
| `WakeProtocol.HandshakeStep` | zincio/src/executor.rs:796-830 | every step keeps the handshake between `waiting`, `interrupt_pending`, the interrupt and the positions of all waker threads |
| `WakeProtocol.ThreadHandshake` | zincio/src/task.rs:106-119 | a thread that leaves without interrupting does so only when no interrupt is needed from it |
| `WakeProtocol.RunInv` | zincio/src/executor.rs:760-855 | the whole invariant holds in every state of every run, from a new runtime through any number of `block_on` calls |
| `WakeHistory.DoneIff` | zincio/src/executor.rs:832-844 | over every run, a task is complete if and only if a poll of it returned ready |
| `WakeHistory.WokenIff` | zincio/src/task.rs:81-119 | over every run, a wake of a task is outstanding if and only if one took effect and no poll of the task has begun since |
| `WakeHistory.WokenIsHeld` | zincio/src/executor.rs:832-844 | a task with an outstanding wake, of which no poll returned ready, is in a queue, about to be pushed, just popped or in the batch |
| `WakeHistory.ServeIsPoll` | zincio/src/executor.rs:832-844 | a task that comes up in the batch is polled unless it is complete |
| `WakeHistory.CallTakesEffect` | zincio/src/task.rs:106-119 | a waker called on another thread takes effect with that thread's next step |
| `WakeHistory.RootStep` | zincio/src/executor.rs:204-224 | the root is ready if and only if its waker took effect, `block_on` was entered, or it was ready and its poll has not begun |
| `WakeHistory.RootIsAnswered` | zincio/src/executor.rs:776-782 | a ready root is polled, or `block_on` returns, within 2 * (4B + 16) steps of the scheduler |
| `WakeHistory.ReturnIff` | zincio/src/executor.rs:776-782 | `block_on` returns if and only if a poll of the root returned ready |
| `WakeHistory.IdleParks` | zincio/src/executor.rs:796-830 | with nothing to do and nobody interfering, the scheduler goes to the driver's wait, with `waiting` set and `interrupt_pending` cleared |
| `ReadyQueues.Runtime.EnqueueIfNeeded` | zincio/src/task.rs:81-104 | a waker on the scheduler's thread puts an unqueued task in the inline queue, or in the main queue when that is full, and does nothing to a queued one |
| `ReadyQueues.Runtime.Spawn` | zincio/src/executor.rs:513-542 | a new task starts queued, at the end of the main queue |
| `ReadyQueues.Runtime.DrainNext` | zincio/src/executor.rs:595-605 | takes the longest prefix of the inline queue within budget and clears exactly those flags |
| `ReadyQueues.Runtime.DrainRemote` | zincio/src/executor.rs:607-616 | likewise for the remote queue |
| `ReadyQueues.Runtime.DrainMain` | zincio/src/executor.rs:618-628 | likewise for the main queue |
| `ReadyQueues.Runtime.DrainReady` | zincio/src/executor.rs:594-629 | the batch is the longest prefix within budget of the three queues laid end to end |
| `ReadyQueues.DrainBySteps` | zincio/src/executor.rs:594-629 | the pop-by-pop drain of the interleaving model, undisturbed, gives that same batch, queues and flags |
| `ReadyQueues.BoundedWait` | zincio/src/executor.rs:594-629 | with batch size B > 8 and no cross-thread wakes, the task at index i of the main queue is drained within n drains as soon as n * (B - 8) > i, whatever the polled tasks wake or spawn |
| `WaitBounds.ServedWithinDrains` | zincio/src/executor.rs:594-629 | over every run of the interleaving model with B > 8, a task in a queue or batch comes up for its poll before laps + 1 drains are over, if laps * (B - 8) exceeds what stands before it plus the pushes of other threads meanwhile |
| `WaitBounds.ServedWithinSteps` | zincio/src/executor.rs:774-854 | the same in steps of the scheduler: 4B + 16 for each of those drains and each return from `block_on` |
| `WaitBounds.WakeIsAnswered` | zincio/src/task.rs:81-119 | a wake since the latest poll is answered within those steps, counted from when no thread is about to push the task |
| `WaitBounds.StepsBound` | zincio/src/executor.rs:774-854 | in any stretch of a run the scheduler takes at most 4B + 16 steps for each drain and each return, and 4B + 16 more |
| `WakeToPoll.CallIsAnswered` | zincio/src/task.rs:81-119 | a waker call on any thread, once it has marked the task and nobody is about to push it: the task has come up for its poll or is complete, or the moves of all threads since are bounded and, inside `block_on`, another is bound to come: an access in a waker call, a scheduler step, or the return of a wait whose interrupt is set |
| `WakeToPoll.RankBound` | zincio/src/task.rs:106-119 | over any stretch of a run, the accesses made inside waker calls are bounded by the calls in progress and begun |
| `WakeToPoll.NotAtRest` | zincio/src/executor.rs:796-830 | with an unserved wake, no state inside `block_on` is one in which nothing is bound to happen |
| `WaitBounds.TrackStep` | zincio/src/executor.rs:594-629 | every step of every thread keeps the account of drains, pushes and tasks ahead of a waiting task |
| `Starvation.SmallBatchStarvesRuns` | zincio/src/task.rs:83-101 | for every B <= 8 and every n there is a run from a new runtime with n drains, and no other thread, throughout which one task stands first in the main queue and is never served |
| `Starvation.BoundedIff` | zincio/src/executor.rs:594-629 | a bound, for all runs, on the drains that the first task of the main queue waits exists if and only if B > 8 |
| `WheelSpec.FiringWindow` | zincio/src/timer.rs:170-216 | over every run of insert, remove and advance no live timer is more than 62 ticks overdue |
| `WheelSpec.WindowIsTight` | zincio/src/timer.rs:185-208 | the wheel's bound of 62 is reached, by a timer inserted for the current tick |
| `WheelSpec.FullTurnFiresAllDue` | zincio/src/timer.rs:185-208 | an advance by 63 ticks or more leaves nothing due |
| `WheelSpec.FiresExactly` | zincio/src/timer.rs:170-276 | an advance returns a timer if and only if it is due and either its delay when last placed was 64 or more or the advance reaches the first sweep of its slot |
| `WheelSpec.OnTimeIff` | zincio/src/timer.rs:170-276 | a timer not yet due is returned by whichever advance makes it due if and only if its delay when placed was 64 or more or its slot comes round by its expiration |
| `WheelSpec.PromptIff` | zincio/src/timer.rs:119-215 | over every run and every continuation without a cancel, a timer inserted at tick p with delay d >= 1 is returned by the advance that reaches p + d if and only if p % 64 = 0 and d < 64, or p % 64 = 1 and d = 1 |
| `WheelSpec.NotPrompt` | zincio/src/timer.rs:226-276 | for every other p and d, one or two advances leave the timer due in the wheel |
| `WheelSpec.SweptTooEarly` | zincio/src/timer.rs:254-276 | two concrete timers, one on level 0 and one above, that are left behind |
| `WheelSpec.LateExample` | zincio/src/timer.rs:120-121 | a concrete timer that stays in the wheel when its tick comes |
| `WheelSpec.RunWindow` | zincio/src/timer.rs:170-276 | in every run, a timer placed at an earlier tick was placed with a delay below 64 and its slot has not been swept since |
| `WheelSpec.TimersConserved` | zincio/src/timer.rs:119-165 | over every history with key reuse, every generation issued is exactly one of live, cancelled and fired, and no other generation is any |
| `WheelSpec.StaleHandleIsInert` | zincio/src/timer.rs:147-165 | removing with the handle of a cancelled or fired timer changes nothing, even if its key is in use again |
| `WheelSpec.HandlesAreFresh` | zincio/src/timer.rs:119-143 | an insertion gives out a generation never given out before |
| `WheelSpec.WaitsUntilFired` | zincio/src/timer.rs:119-165 | until cancelled, a timer keeps its waker and expiration until an advance returns it, whatever else happens |
| `WheelLayout.LevelZero` | zincio/src/timer.rs:280-305 | level 0 holds exactly the delays below 64, each in the slot of its own number |
| `TimingWheelClass.TimingWheel.constructor` | zincio/src/timer.rs:61-71 | a new wheel refines the empty table |
| `TimingWheelClass.TimingWheel.IsEmpty` | zincio/src/timer.rs:74-76 | true exactly when no timer is live |
| `TimingWheelClass.TimingWheel.CalculateLevelAndSlot` | zincio/src/timer.rs:280-305 | the loop finds the level and slot of the layout |
| `TimingWheelClass.TimingWheel.RefreshMinExpiration` | zincio/src/timer.rs:104-115 | despite stale keys and key reuse, the cached minimum becomes the true minimum over live entries, none if and only if there are none |
| `TimingWheelClass.TimingWheel.NearestWakeup` | zincio/src/timer.rs:87-91 | returns that minimum, and nothing for an empty wheel or a minimum at tick 0 |
| `TimingWheelClass.TimingWheel.Insert` | zincio/src/timer.rs:119-143 | enters one timer in the table, under a vacant key and a new generation, and keeps slab, lists, heap and minimum in agreement |
| `TimingWheelClass.TimingWheel.Remove` | zincio/src/timer.rs:147-165 | deletes exactly the timer the handle names, or nothing |
| `TimingWheelClass.TimingWheel.ProcessList` | zincio/src/timer.rs:226-276 | empties one slot list: due timers leave with their wakers, the others are placed afresh, each live index stays in exactly one list |
| `TimingWheelClass.TimingWheel.CascadeAllLevels` | zincio/src/timer.rs:219-223 | processes every list above level 0 |
| `TimingWheelClass.TimingWheel.SweepLevel0` | zincio/src/timer.rs:185-208 | processes the level-0 lists of the ticks passed |
| `TimingWheelClass.TimingWheel.Advance` | zincio/src/timer.rs:170-216 | refines the table's advance, and returns the waker of each timer that fires, each once |
| `TimingWheelClass.InSweepIsSwept` | zincio/src/timer.rs:185-208 | the slot ranges of the three branches are exactly the slots on which some tick passed falls |
| `TimingWheelClass.LookedIsTouched` | zincio/src/timer.rs:170-208 | the lists processed hold exactly the timers the table says are touched |
| `TimingWheelClass.HighLevelsAreCurrent` | zincio/src/timer.rs:226-250 | an entry above level 0 always sits where its remaining delay puts it |
| `TimerSpec.NeverEarly` | zincio/src/timer.rs:331-393 | over every run of submit, cancel and spin, no timer is woken a full millisecond or more before its deadline |
| `TimerSpec.SubmitExact` | zincio/src/timer.rs:331-347 | a submission enters its waker for the last tick that does not lie beyond its deadline |
| `TimerSpec.CancelExact` | zincio/src/timer.rs:350-352 | a cancelled handle names nothing, and nothing else changes |
| `TimerSpec.SpinReads` | zincio/src/timer.rs:356-377 | a spin takes the clock's reading; an empty wheel stays where it is |
| `TimerSpec.TimerWindow` | zincio/src/timer.rs:331-393 | over every such run no live timer is more than 61 ticks overdue |
| `TimerSpec.TimerWindowIsTight` | zincio/src/timer.rs:331-393 | a run that reaches 61 |
| `TimerSpec.RunInv` | zincio/src/timer.rs:331-393 | the instant plus the remaining ticks stays less than a millisecond short of every live deadline |
| `TimerSpec.SpinLag` | zincio/src/timer.rs:372-377 | each spin over live timers loses exactly the sub-millisecond part of the time passed |
| `TimerSpec.FastSpinsFreeze` | zincio/src/timer.rs:372-377 | spins less than a millisecond apart never advance the wheel |
| `TimerClass.Timer.Submit` | zincio/src/timer.rs:331-347 | enters a timer if and only if the delay is at least a millisecond and fits in 64 bits; a shorter one wakes at once |
| `TimerClass.Timer.Cancel` | zincio/src/timer.rs:350-352 | removes what the handle names |
| `TimerClass.Timer.SpinAndGetDeadline` | zincio/src/timer.rs:356-393 | refines the spin, wakes exactly the timers fired; the wait is none if and only if no timer is live, and otherwise the least, over live timers, of the ticks to go, at least 1 |
| `SleepSpec.PendingStaysArmed` | zincio/src/time/sleep.rs:142-198 | over every run of polls, resets and drops of any number of sleeps and spins of any number of timers: from a pending poll until the sleep is polled again, reset or dropped, its handle names a live timer with that poll's waker, or that waker has been called, or another sleep has presented that handle to that timer |
| `SleepSpec.LoyalStaysArmed` | zincio/src/time/sleep.rs:100-198 | if every repeated poll and every reset inside a runtime finds the timer its sleep has stored, the last case does not arise |
| `SleepSpec.ArmedStepIff` | zincio/src/time/sleep.rs:100-212 | a step of another sleep leaves a timer armed if and only if it does not present its handle to it |
| `SleepSpec.DisloyalStrands` | zincio/src/time/sleep.rs:107-112 | a run over two runtimes in which a reset disarms another pending sleep |
| `SleepSpec.ArmedSpin` | zincio/src/timer.rs:356-393 | a spin leaves a timer armed or calls its waker |
| `SleepSpec.SleepNotEarly` | zincio/src/time/sleep.rs:142-198 | in every run, no poll is ready a full millisecond or more before the deadline, unless the deadline is 2^64 milliseconds or more after the start of the run |
| `SleepSpec.DueIsReady` | zincio/src/time/sleep.rs:172-176 | a poll at or after the deadline is ready if the sleep has a handle, or if the timer is within a millisecond and the sleep need not yield |
| `SleepSpec.DueSleepCompletes` | zincio/src/time/sleep.rs:117-198 | over every run, of two polls in a row after the timer was spun at or past the deadline the second is ready, and the first is ready or has called the waker |
| `SleepSpec.ReadyIsFinal` | zincio/src/time/sleep.rs:146-148 | a completed sleep stays ready, and exactly the ready polls complete it |
| `SleepSpec.DeadlineKept` | zincio/src/time/sleep.rs:100-113 | over every run, a sleep waits for the deadline of its creation or its latest reset, where it started over |
| `SleepSpec.ResetWaitsForNew` | zincio/src/time/sleep.rs:100-113 | the first poll after a reset is judged by the new deadline alone, and if pending leaves that armed or has called the waker |
| `SleepSpec.LeavesNothing` | zincio/src/time/sleep.rs:100-212 | a sleep that stays with its runtime leaves no timer under a handle it gives up |
| `SleepSpec.EarlyIff` | zincio/src/time/sleep.rs:142-198 | a poll is ready a millisecond or more early if and only if the delay does not fit in 64 bits and the poll is not the one that yields, nor a repeated one outside the runtime |
| `SleepSpec.HugeSleepIsEarly` | zincio/src/timer.rs:331-338 | a concrete sleep of 2^64 milliseconds that is ready at once |
| `SleepSpec.PendingIff` | zincio/src/time/sleep.rs:142-198 | a pending poll leaves its waker armed or called if and only if it is not a repeated poll outside the runtime |
| `SleepSpec.RunInv` | zincio/src/time/sleep.rs:100-212 | in every state of every run, handles belong to one sleep each and were issued for its deadline by one timer, and a completed sleep was not early unless its deadline is 2^64 milliseconds or more after the start of the run |
| `SleepClass.Sleep.Reset` | zincio/src/time/sleep.rs:100-113 | takes the reset step: the handle is cancelled in the current timer, if any, and the sleep starts over |
| `SleepClass.Sleep.HandleImmediateWakeup` | zincio/src/time/sleep.rs:117-136 | ready at once, or after one yield that wakes the task |
| `SleepClass.Sleep.Schedule` | zincio/src/time/sleep.rs:154-165 | a first poll takes the poll step on the stored timer |
| `SleepClass.Sleep.Repoll` | zincio/src/time/sleep.rs:172-197 | a repeated poll takes the poll step on the current timer |
| `SleepClass.Sleep.Poll` | zincio/src/time/sleep.rs:142-198 | takes the poll step on the timer it uses, keeping the first one stored; it is early exactly as `SleepSpec.EarlyIff` says, ready when due as `SleepSpec.DueIsReady` says, and a pending poll is armed or called exactly as `SleepSpec.PendingIff` says |
| `SleepClass.Sleep.Drop` | zincio/src/time/sleep.rs:201-212 | a dropped sleep cancels in its stored timer |
| `MioSpec.NoSideStranded` | zincio/src/driver/mio.rs:236-280 | over every run, a side that waits is watched, and if it is ready an undelivered event for it exists |
| `MioSpec.DeliveryWakes` | zincio/src/driver/mio.rs:89-126 | a delivery for a handle with a waiting, ready side takes that side's waiter and calls it |
| `MioSpec.WaitWakesExactly` | zincio/src/driver/mio.rs:99-124 | over every run, a wait calls exactly the wakers of the slots it empties, as many as `waiter_count` falls |
| `MioSpec.EventTakes` | zincio/src/driver/mio.rs:110-122 | an occupied slot is emptied if and only if the event is for its handle and reports its side, by readiness, a closed half or an error |
| `MioSpec.LatestWakerKept` | zincio/src/driver/mio.rs:236-280 | from a `submit_poll` until that side is asked for again or the handle goes, its slot holds the waker of that call, or a wait has called it |
| `MioSpec.CacheSpares` | zincio/src/driver/mio.rs:260-271 | after a registration exactly the interests within it need no re-arming, and after a call the same call needs none |
| `MioSpec.CountExact` | zincio/src/driver/mio.rs:69-81 | `waiter_count` is the number of occupied waiter slots, positive exactly when somebody waits |
| `MioSpec.SubmitPollServed` | zincio/src/driver/mio.rs:236-280 | re-arming, or relying on the cached interest, keeps both sides served |
| `MioSpec.HandleServed` | zincio/src/driver/mio.rs:98-122 | the side an event leaves waiting is still served |
| `MioSpec.RunInv` | zincio/src/driver/mio.rs:69-280 | the driver's invariant holds in every state of every run |
| `MioDriverClass.MioDriver.RegisterHandle` | zincio/src/driver/mio.rs:155-181 | registers, or undoes the slab insertion when the kernel refuses |
| `MioDriverClass.MioDriver.DeregisterHandle` | zincio/src/driver/mio.rs:208-233 | removes the handle and its waiters from the count |
| `MioDriverClass.MioDriver.UpdateWaiter` | zincio/src/driver/mio.rs:69-81 | stores the waker and counts a newly occupied slot |
| `MioDriverClass.MioDriver.SubmitPoll` | zincio/src/driver/mio.rs:236-280 | takes the step of the specification, or changes nothing on an error |
| `MioDriverClass.MioDriver.WaitTimeout` | zincio/src/driver/mio.rs:89-126 | handles all events in order and calls exactly the wakers of the sides they are for |
| `UringKeys.KeyRoundTrip` | zincio/src/driver/uring.rs:135-157 | the kind always decodes back; the token does if and only if it is below 2^62 |
| `UringKeys.KeyInjective` | zincio/src/driver/uring.rs:135-157 | no two keys of tokens below 2^62 coincide |
| `UringKeys.ReservedIff` | zincio/src/driver/uring.rs:332-339 | a key coincides with a reserved value if and only if it is that of token 2^62 - 1 on the write side |
| `UringPolls.NoWaiterStranded` | zincio/src/driver/uring.rs:540-608 | over every run, a waiter has a poll of the present registration in flight that watches its side, even when stale completions hit a reused token |
| `UringPolls.LatestWakerKept` | zincio/src/driver/uring.rs:540-608 | from a successful `submit_poll` until that side is asked for again or the handle goes, its waiter is the waker of that call, or a completion has yielded it |
| `UringPolls.CompleteTakes` | zincio/src/driver/uring.rs:344-364 | a completion takes the waiter of its own side and no other |
| `UringPolls.LatestPollYields` | zincio/src/driver/uring.rs:344-364 | the completion of a waited side's latest poll yields its waiter |
| `UringPolls.MixedInterest` | zincio/src/driver/uring.rs:553-582 | for an interest in both sides, the poll in flight covers it if and only if the write side was idle or armed with a covering mask |
| `UringPolls.MixedInterestReached` | zincio/src/driver/uring.rs:553-582 | a run of three calls after which no poll in flight watches a side just asked for |
| `UringPolls.StepInv` | zincio/src/driver/uring.rs:344-364 | every call and every completion keeps: a waiter implies an armed side, and an armed side that its latest poll is in flight |
| `UringOps.TokenNotReissued` | zincio/src/driver/uring.rs:611-639 | a token free to be issued belongs to no submission whose completion is undrained |
| `UringOps.ResultIsOwnAndOnce` | zincio/src/driver/uring.rs:642-649 | a poll that returns a result returns what was posted for that operation's own submission, not handed out before |
| `UringOps.DeliveredForGood` | zincio/src/driver/uring.rs:642-649 | a result handed out is never handed out again |
| `UringOps.BufferOutlivesSubmission` | zincio/src/op/read.rs:309-329 | over every run, the buffer of a submission in flight is with its operation or with the driver if and only if that operation was not dropped, waiting, where its own runtime is not the current one |
| `UringOps.OrphanReached` | zincio/src/op/read.rs:309-329 | a run of three steps after which the kernel owns a buffer that nobody keeps |
| `UringOps.OrphansExact` | zincio/src/op/read.rs:309-329 | a submission is an orphan if and only if its operation was dropped, waiting, elsewhere |
| `UringOps.ForeignDropStrands` | zincio/src/driver/uring.rs:660-665 | in every reachable state, abandoning the entry of a waiting operation by its token makes its result and its token go with its completion |
| `UringOps.DrainReleasesBuffer` | zincio/src/driver/uring.rs:366-380 | an abandoned buffer is released by the drain of its own completion and by no other |
| `UringOps.PendingIsWoken` | zincio/src/op/read.rs:154-173 | an operation left pending is in flight; draining its completion yields its latest waker, and the next poll returns what was posted |
| `UringOps.LatestWakerKept` | zincio/src/op/read.rs:154-173 | from a poll that leaves an operation waiting until it is polled again or dropped, it waits under the waker of that poll, or its completion has yielded it |
| `UringOps.EachResultOnce` | zincio/src/driver/uring.rs:642-649 | over every run, no two polls return the result of one submission, and what is returned is what the kernel posted for it |
| `UringOps.CompleteExact` | zincio/src/driver/uring.rs:366-380 | a drain touches one entry: it stores the result and takes the waiter, or removes an abandoned entry |
| `UringOps.RunInv` | zincio/src/driver/uring.rs:611-665 | the ownership invariant holds in every state of every run, drops outside the runtime included |
| `UringDriverClass.Routing` | zincio/src/driver/uring.rs:328-342 | the key of a completion leads back to the submission it was made for and to no other kind |
| `UringDriverClass.CompletionWakes` | zincio/src/driver/uring.rs:366-380 | over every run, draining the completion of a pending operation calls the waker of its latest poll |
| `UringDriverClass.PollWakes` | zincio/src/driver/uring.rs:344-364 | over every run, draining the latest poll of a side calls the waker of the latest call that asked for it, if it was not called before |
| `UringDriverClass.UringDriver.RegisterHandleWithMode` | zincio/src/driver/uring.rs:460-487 | a registration starts with both sides idle |
| `UringDriverClass.UringDriver.DeregisterHandle` | zincio/src/driver/uring.rs:510-532 | removes the registration; its polls stay in flight |
| `UringDriverClass.UringDriver.SubmitPoll` | zincio/src/driver/uring.rs:540-608 | takes the poll step, succeeds if and only if the side was armed or the push was, and undoes a failed push |
| `UringDriverClass.UringDriver.SubmitCompletion` | zincio/src/driver/uring.rs:611-639 | stores the operation under a vacant token, only after a successful push |
| `UringDriverClass.UringDriver.GetCompletionResult` | zincio/src/driver/uring.rs:642-649 | hands out a posted result by removing it |
| `UringDriverClass.UringDriver.SetCompletionWaker` | zincio/src/driver/uring.rs:652-657 | replaces the waiter of a live entry |
| `UringDriverClass.UringDriver.IgnoreCompletion` | zincio/src/driver/uring.rs:660-665 | leaves the buffer with a live entry |
| `UringDriverClass.UringDriver.DrainOne` | zincio/src/driver/uring.rs:328-381 | one completion disarms its side or stores its result, releases an abandoned entry and yields its waiter |
| `UringDriverClass.UringDriver.DrainCq` | zincio/src/driver/uring.rs:315-384 | a batch is drained entry by entry, and every waiter is yielded in the order of the entries |
| `ReadOpClass.ReadOp.PollCompletion` | zincio/src/op/read.rs:149-195 | operation and driver together take the poll step; the outcome is pending, the posted count, the posted error or a failed submission |
| `ReadOpClass.DecodedExact` | zincio/src/op/read.rs:174-195 | a result is read as the count or the error number that was reported, counts being those not negative |
| `ReadOpClass.ReadOp.Drop` | zincio/src/op/read.rs:309-329 | an operation dropped while waiting moves its buffer to the driver of the current runtime, if any; its own driver takes the drop step |
| `AsyncWrapSpec.ReadsRefineStream` | zincio/src/util/async_wrap.rs:77-127 | over any interleaving of polls and any buffer sizes, the bytes delivered followed by the leftovers are the bytes the wrapped object gave; the object is in exactly one place |
| `AsyncWrapSpec.EmptyReadIsEof` | zincio/src/util/async_wrap.rs:82-127 | a read delivers nothing if and only if it has no room or the object's read returned 0; it is turned away if and only if it needs the object while a write or flush has it |
| `AsyncWrapSpec.ReadAnswers` | zincio/src/util/async_wrap.rs:110-127 | a read that reaches the object is pending, failed or ready as the object answers, with the object's error or the front of its data |
| `AsyncWrapSpec.LeftoversAreReady` | zincio/src/util/async_wrap.rs:88-98 | a read served from leftovers returns their front at once and leaves the object alone |
| `AsyncWrapSpec.WritesAreWhole` | zincio/src/util/async_wrap.rs:135-179 | a write that succeeds has put its whole buffer in the object and reports its length; one that fails has put a strict prefix there |
| `AsyncWrapSpec.DriveKeeps` | zincio/src/util/async_wrap.rs:152-172 | however the object splits a write over polls, the account of written and remaining bytes stays exact |
| `AsyncWrapSpec.DriveExact` | zincio/src/util/async_wrap.rs:157-170 | a driven write is unfinished, finished or broken exactly as the amounts and the failures in the object's answers say |
| `AsyncWrapSpec.WriteAnswers` | zincio/src/util/async_wrap.rs:135-179 | over every run, a write that reaches the object is pending exactly while it is in progress, and an error is the object's own |
| `AsyncWrapSpec.EmptyWriteIsDone` | zincio/src/util/async_wrap.rs:140-142 | an empty write returns 0 and touches nothing |
| `AsyncWrapSpec.FlushIsFaithful` | zincio/src/util/async_wrap.rs:182-202 | a flush is turned away if and only if a read or write has the object; otherwise it returns the object's own answer and leaves its streams alone |
| `AsyncWrapSpec.CountExceedsIff` | zincio/src/util/async_wrap.rs:135-179 | over every run, a write that succeeds reports more than the length of the buffer it was last polled with if and only if it was in progress with a longer one |
| `AsyncWrapSpec.CountExceeds` | zincio/src/util/async_wrap.rs:146-178 | a run that gets there |
| `AsyncWrapClass.AsyncWrap.PollRead` | zincio/src/util/async_wrap.rs:77-127 | takes the read step of the specification |
| `AsyncWrapClass.AsyncWrap.PollWrite` | zincio/src/util/async_wrap.rs:135-179 | takes the write step of the specification |
| `AsyncWrapClass.AsyncWrap.RunWrite` | zincio/src/util/async_wrap.rs:152-172 | the write loop, as far as one poll takes it |
| `AsyncWrapClass.AsyncWrap.PollFlush` | zincio/src/util/async_wrap.rs:182-202 | takes the flush step of the specification |
| `PumpSpec.StallIff` | zincio/src/io/sendfile.rs:41-75 | for 0 < slots < the largest `usize`: some outcomes of the two splices bring the pump to a splice into a pipe without a free slot if and only if slots < min(len - 1, file length) and the first request is at most 2^32 - 1 |
| `PumpSpec.StallNeeds` | zincio/src/io/sendfile.rs:41-75 | every stalled run meets that condition, for any `usize` |
| `PumpSpec.StallReached` | zincio/src/io/sendfile.rs:41-75 | a run that stalls: the file fills every slot with one byte more than there are slots, and the socket takes one byte |
| `PumpSpec.OneByteNeverStalls` | zincio/src/io/sendfile.rs:42-48 | with requests of one byte no run stalls |
| `PumpSpec.RoomIff` | zincio/src/io/sendfile.rs:69-75 | bytes taken by the socket free a slot if and only if they include all of the first |
| `Sendfile.SendfileExactCompletion` | zincio/src/io/sendfile.rs:38-79 | ends or stalls, its turns being a run of the state machine; the socket has a prefix of the file, no longer than asked for; every byte taken from the file is in the socket or in the pipe; a success is the smaller of length asked and bytes available unless the socket refused; an error is that of the failed call; a first request over 32 bits is refused with nothing sent |
| `Sendfile.AskFile` | zincio/src/io/sendfile.rs:42-56 | takes the first half of a turn, or ends the loop with the call's error or a stall |
| `Sendfile.FeedSocket` | zincio/src/io/sendfile.rs:58-74 | takes the second half of a turn, or ends the loop with the call's error or a refusal |
| `Sendfile.Kernel.SpliceFromFile` | zincio/src/op/splice.rs:97-119 | a request over 32 bits is refused; otherwise it waits exactly when no slot is free, and moves what one splice may |
| `Sendfile.Kernel.SpliceToSocket` | zincio/src/op/splice.rs:97-119 | the same limit; otherwise it moves what one splice may, in order |
| `Sendfile.SendfileExactPoll` | zincio/src/io/sendfile.rs:82-109 | the same by direct transfers |
| `IntervalSpec.CatchUpCountsLattice` | zincio/src/time/interval.rs:133-136 | the closed form is the number of lattice points in [base, now] |
| `IntervalSpec.TickGives` | zincio/src/time/interval.rs:76-147 | a tick returns 1, or when late under CatchUp the number of lattice points in [base, now], unless dropped or too many for 64 bits |
| `IntervalSpec.ZeroPeriod` | zincio/src/time/interval.rs:81-82 | with a period of zero a completed tick returns 1 and the next deadline is the old one or the clock |
| `IntervalSpec.SkipIsLeast` | zincio/src/time/interval.rs:79-99 | a late skipping tick aims at the least lattice point after now, if and only if at most 2^64 - 1 periods were missed |
| `IntervalSpec.Conservation` | zincio/src/time/interval.rs:70-149 | over any run, with both behaviours and dropped ticks mixed, the deadline advances by one period for every tick given and every lattice point lost, so it stays on its lattice |
| `IntervalSpec.AllTickedIffOnTime` | zincio/src/time/interval.rs:133-147 | every lattice point is ticked for if and only if no completed tick was late |
| `IntervalSpec.CatchUpPassesOne` | zincio/src/time/interval.rs:138-145 | a late catch-up schedules the second lattice point after now, not the first |
| `IntervalSpec.CatchUpLosesTick` | zincio/src/time/interval.rs:138-147 | a concrete late tick that returns 1 and moves the deadline by two periods |
| `IntervalSpec.FirstTick` | zincio/src/time/interval.rs:73-74 | the first completed tick anchors the lattice at the instant it was called |
| `IntervalClass.Interval.Tick` | zincio/src/time/interval.rs:70-149 | count, next deadline and the sleep awaited are those of the specification; a dropped tick changes nothing |
| `IntervalClass.AwaitReaches` | zincio/src/time/interval.rs:99-106 | the sleep of a tick lasts until its target, and is a yield if less than a millisecond is left |
| `IntervalClass.TickNotEarly` | zincio/src/time/interval.rs:99-106 | over every run of sleeps, a tick completes less than a millisecond before its target at the earliest |
| `IntervalClass.TickMayBeEarly` | zincio/src/time/interval.rs:100-103 | a concrete tick that completes before its target |
| `IntervalClass.Interval.AdvanceBy` | zincio/src/time/interval.rs:138-141 | the loop adds the missed periods |
| `IntervalClass.Interval.AdvancePast` | zincio/src/time/interval.rs:86-97 | the loop reaches the target in closed form |

## Left out

- driver/iocp.rs: its completion slab repeats the shape of the io_uring one; the rest is Windows handles.
- Operations other than reads, and `ReadOp::poll_poll`: the same skeleton around other system calls.
- `take_bufs`: it is called on operations that have completed.
- Runs in which an operation of another runtime is dropped inside this one: `UringOps.ForeignDropStrands` says what
  one such drop does, and the theorems over runs of `UringOps` are about runs without it.
- net, fs, stdio, process and signal modules, and the hyper and quinn adapters: plumbing over the core.
- `JoinHandle`, `SpawnFuture` and `DetachedFuture`: a spawned future stores its output in a cell shared with
  the handle and wakes whoever polled the handle last; one thread touches the cell, so nothing beyond the
  wakes modelled here depends on order.
- `spawn_blocking`: it hands work to a thread pool that is not part of this model.
- Raw waker tables, reference counts and pinning: a waker is an identifier.
- Weak memory orderings, and a dropped `Runtime` whose queues no longer accept pushes.
- Overflow of u64 tick and generation counters, and of instants.
- Liveness under a root future that wakes itself for ever, and upper bounds on real lateness of a timer:
  the code gives neither (`TimerSpec.FastSpinsFreeze`).
- Slab entries of operations that are dropped after completing but before being read: they stay in the
  slab, and nothing is claimed about their release.
- `MioDriver::reregister_handle` and `UringDriver::reregister_handle`: not used by the core.
- The submission queue of io_uring, its timeouts and its eventfd read: a push succeeds or fails.
- `AsyncWrapSpec.DriveKeeps`: an object that answers writes with 0 for ever keeps one poll of the program from
  returning; only polls that return are modelled.
- `Sendfile.SendfileExactCompletion`: creating the pipe may fail before the part modelled; how many bytes a slot holds is left to the kernel.
- `IntervalClass.Interval.Tick`: a missed count of exactly 2^64 is treated as the panic it is with overflow checks on.
