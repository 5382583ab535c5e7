# A verified model of the runtime's scheduler and the state around it

This project models, in Dafny, the parts of the JavaScript runtime that keep state by hand and must not
get it wrong: the event loop and its driver, the futures behind JavaScript promises that several loops of
a thread share, timer ids, the active-loop cells, class inheritance and borrow flags, the module registry
and the path keys it uses, nested module loads, byte sizes, the snapshot-continuous clock, and Web IDL
clamping. `dafny verify dfyconfig.toml` checks all of it.

JavaScript and host code are not modelled. A task, a poll, a reaction or a load hook is the sequence of
operations it performs on the modelled state, nested as deeply as it likes (`Work.dfy`). A lemma for all
such sequences is a lemma for all executions. Time, resolved paths, compilation results, engine callbacks
and whatever happens during an await are parameters.

## How it is built

Code that updates its fields is a class here too, each of whose methods is proved to equal a function on
plain values. The results over runs are lemmas about those functions.

| file | what it holds |
|---|---|
| `Common.dfy`, `Work.dfy` | shared definitions; operations, tasks and futures as data |
| `TaskQueue.dfy` | the three-index task queue, against one unindexed store |
| `TimerIds.dfy` | timer id allocation, alone and by several loops sharing one global |
| `Futures.dfy`, `FutureRuns.dfy`, `FutureAborts.dfy`, `PollContents.dfy` | the shared future queues, what every interleaving of loops keeps, when aborts stay with their own loop, and what a poll performs |
| `EventLoop.dfy`, `LoopRuns.dfy`, `DispatchOrder.dfy`, `Interest.dfy`, `TimerRelease.dfy` | the event loop, what holds over its runs, which task runs first, when interest is held, and when releasing a timer id is harmless |
| `Driver.dfy`, `DriverLaws.dfy` | the driver, with other loops and the host acting wherever it awaits, and what it does in terms of the operations performed |
| `ActiveLoop.dfy` | nested blocks with and without an event loop |
| `Inheritance.dfy`, `Borrowing.dfy` | the inheritance registry and the borrow flag |
| `ModulePaths.dfy`, `ModuleRegistry.dfy`, `LoadOutcome.dfy` | path normalisation, the module registry, nested loads |
| `ByteSize.dfy`, `Clock.dfy`, `Clamp.dfy` | byte sizes, the clock, clamping |

The main results:

- The indexed queue, stepped or driven by hand with tasks that re-enter the loop, dispatches what an
  unindexed list scanned and sorted each time would (`DriveByHand`, `Step`), and a step runs a task
  exactly when it is ready or due and not cancelled before its turn (`StepRunsExactlyIf`).
- Of two tasks a step runs, the earlier is not a timer while the later is, or is due earlier, or was queued
  first (`StepRunsInOrder`, `FirstQueuedRunsFirst`).
- A cleared timer's task never runs again, wherever it was cleared from (`ClearedNeverRuns`).
- Over every interleaving of loops no future is lost or duplicated, and each keeps its owner and its place
  in spawn order (`Conservation`).
- The driver returns by itself only when nothing is left (`ReturnsWhenQuiet`), and neither tasks that are
  always ready nor idle waits can starve a future (`NoStarvation`). Interest that is held keeps it going
  (`HeldInterestKeepsDriving`), and a requested stop ends it (`RequestedStopStops`).
- Relative paths have one normal form exactly when they lead to the same place (`SamePlaceSameForm`), and
  absolute ones exactly when they do and meet the root with equally many `..`
  (`AbsoluteSameFormExactlyIf`).
- A file keeps its module through any run of operations exactly when none of them names its key or clears
  the registry (`KeepsItsModuleExactlyIf`).

## Where the code differs from what it says

The model follows the code. Each of these is a property the code does not always have, with the exact
condition under which it has it, proved both ways, and a concrete case where it fails.

- Aborting by promise drops that promise's future whichever loop owns it, although futures are described
  as their own loop's alone. Over a run every future's fate is its own loop's doing exactly when each
  abort found only its own loop's or unowned futures (`FatesAtHomeExactlyIf`, `AbortMayLeaveHome`).
- Leaving the event loop does not clear the owner of spawns. A spawn belongs to the active loop exactly
  when no block without a loop around it leaves one (`OwnerIsTheActiveLoop`, `OwnerOutlivesTheLoop`).
- Releasing a fired one-shot's timer id is harmless exactly when the id does not map to another queued
  task. It is when every global its handler sets timers of has passed the id, as the issuing global has. A
  second global may not have (`HarmlessExactlyIf`, `OneShotReleasesItsOwn`, `OneGlobalIsHarmless`,
  `FiredMayReleaseAnotherTimer`).
- A native, synthetic or entry module whose name is a file's canonical path takes the file's place. The
  file keeps its module exactly when no operation names its key or clears the registry
  (`KeepsItsModuleExactlyIf`, `NativeMayReplaceAFile`).
- A native, synthetic or entry module named `json:` followed by an absolute path is what JSON imports of
  that path get. Storing a JavaScript module under a name keeps what every later import gets apart by kind
  exactly when the name is not of that form (`NamesDecideKinds`, `ShadowingMixes`).
- `/..` and `/` keep different keys although they are one directory. Absolute paths get one key exactly
  when they lead to the same place and meet the root with equally many `..` (`AbsoluteSameFormExactlyIf`,
  `RootHasTwoForms`).
- Clamping sends a negative tie with an odd lower neighbour away from zero: -0.5 becomes -2, where Web IDL
  asks for 0. It is right exactly for all other numbers (`ConvertsUnlessTieIsLost`,
  `MinusOneHalfBecomesMinusTwo`).
- Inserting a task under a live id leaves a stale key behind exactly when the old entry is in an index, in
  a place that is not the new entry's (`InsertNeedsAFreshSlot`), as when a timer that is still queued is
  re-queued for another time (`RequeueMayLeaveAStaleKey`). No running code does so (`OpKeepsInv`, `Run`).

## Model

| member | source | states |
|---|---|---|
| TaskQueues.InsertNeedsAFreshSlot | crates/core-runtime/src/event_loop.rs:370-377 | insertion keeps the indexes in agreement with the entries if and only if it overwrites nothing that another place of an index lists |
| EventLoops.RequeueMayLeaveAStaleKey | crates/core-runtime/src/event_loop.rs:602-615 | re-queuing a timer that is still queued for another time leaves its old key behind, which making the task ready does not remove |
| TaskQueues.ReadyOrder | crates/core-runtime/src/event_loop.rs:349-367 | the dispatch order lists exactly the ready entries, sorted with no deadline first, then by deadline, then by id |
| TaskQueues.SortedUnique | crates/core-runtime/src/event_loop.rs:363-366 | a sorted index is determined by its keys, so the index in place and a fresh sort are the same sequence |
| TaskQueues.TaskQueue.Insert | crates/core-runtime/src/event_loop.rs:370-377 | stores exactly the entry, and leaves the ready and timer sets in agreement with the entries if and only if it overwrites nothing that another place of an index lists |
| TaskQueues.TaskQueue.Remove | crates/core-runtime/src/event_loop.rs:379-388 | takes out exactly the entry, returning it or nothing if it is not live, with the indexes still in agreement |
| TaskQueues.TaskQueue.MarkReady | crates/core-runtime/src/event_loop.rs:389-404 | makes exactly that entry ready, and tells whether it was live and not yet ready |
| TaskQueues.TaskQueue.ExpireTimers | crates/core-runtime/src/event_loop.rs:405-416 | terminates, makes exactly the unready timers due at or before the time ready, and counts them |
| TimerIds.AllocateFindsTheFirst | crates/core-runtime/src/event_loop.rs:638-649 | the id found is the first one from the counter on that is nonzero, below the limit and not live, and there is none only if every candidate is live |
| TimerIds.PassingOne | crates/core-runtime/src/event_loop.rs:640-649 | each id the search passes leaves fewer live ids ahead of the counter, so the search ends |
| TimerIds.ClassRegistry.BumpCounter | crates/js/src/class.rs:883-890 | returns the counter and advances it by one, wrapping at 64 bits, and no other counter changes |
| TimerIds.ClassRegistry.NextGlobalCounter | crates/js/src/class.rs:2653-2663 | returns the counter below 2^53-1, and nothing once it has run out |
| TimerIds.ClassRegistry.AllocateId | crates/core-runtime/src/event_loop.rs:640-649 | the search loop ends with the first usable id, and moves only that global's counter |
| TimerIds.IssuedOnce | crates/core-runtime/src/event_loop.rs:638-649 | over every run of several loops sharing one global, ids are nonzero, below the limit, strictly increasing and so never repeated, and never live in the loop that takes them |
| Futures.PromiseTls.SetCurrentFutureOwner | crates/js/src/promise.rs:674-678 | installs the owner of later spawns and returns the previous one |
| Futures.PromiseTls.SpawnFuture | crates/js/src/promise.rs:371-379 | queues the future last in the pending queue, under the current owner |
| Futures.PromiseTls.CancelPendingFuture | crates/js/src/promise.rs:683-706 | drops exactly the futures of the promise from both queues, keeping the order of the others, and tells whether there was one |
| Futures.PromiseTls.CancelPendingFuturesFor | crates/js/src/promise.rs:708-724 | drops exactly the futures owned by the loop from both queues, leaving unowned ones |
| Futures.PromiseTls.CancelAllPendingFutures | crates/js/src/promise.rs:726-733 | drops every future |
| Futures.PromiseTls.HasPendingFutures | crates/js/src/promise.rs:735-743 | true exactly when either queue holds a future the loop may drive |
| Futures.PromiseTls.PollPendingFutures | crates/js/src/promise.rs:767-809 | the polling loop, whose polls may spawn and cancel, leaves the state, the effects and what is left to run of visiting each detached future in turn |
| FutureRuns.OpKeeps | crates/js/src/promise.rs:371-379 | a spawn or an abort by promise, also issued under a poll that holds futures detached, keeps the futures accounted for |
| FutureRuns.DropKeeps | crates/js/src/promise.rs:690-724 | dropping futures from both queues keeps spawn order and records each dropped one, and no other, as gone |
| FutureRuns.DrivenInOrder | crates/js/src/promise.rs:792-802 | the futures a poll visits are exactly those the loop may drive, each once, in spawn order |
| FutureRuns.PollKeeps | crates/js/src/promise.rs:779-809 | a poll keeps every future accounted for, visits exactly the loop's futures, and puts back exactly the survivors ahead of what the polls spawned |
| PollContents.PollDoes | crates/js/src/promise.rs:779-809 | a poll performs the effects of each future it may drive, in spawn order, leaves to run the reactions of each that finishes and the microtasks of each that waits, and adds to the queue what those effects spawn |
| PollContents.PollCompletes | crates/js/src/promise.rs:792-802 | a poll completes each future it may drive that finishes, and changes nothing of what became of others |
| PollContents.FatesAreFinal | crates/js/src/promise.rs:683-733 | over every run, what became of a future is final |
| PollContents.EndLeavesTheOthers | crates/js/src/promise.rs:708-724 | a loop that ends leaves exactly the futures of others queued, and none of its own is unaccounted for |
| PollContents.TearDownLeavesNothing | crates/js/src/promise.rs:726-733 | teardown leaves nothing queued, and every future ever spawned has been accounted for |
| PollContents.SpawnedIsPolledAsGiven | crates/js/src/promise.rs:371-379 | what is spawned within a loop is polled by that loop only, as given, after all that was queued before |
| PollContents.SpawnedIsAborted | crates/js/src/promise.rs:683-706 | aborting the promise of a future drops it and leaves none of that promise |
| PollContents.FirstPollLosesNothing | crates/js/src/promise.rs:381-395 | a first poll and what is queued after it do together what the future does |
| FutureRuns.RunKeeps | crates/js/src/promise.rs:371-379 | over every interleaving of loops' operations, polls and ends, every future spawned is queued once or has one fate, and the owner in force before is in force after |
| FutureRuns.EveryNumberOnce | crates/js/src/promise.rs:779-809 | a future spawned is in the queues or has a fate, and never both |
| FutureRuns.Conservation | crates/js/src/promise.rs:767-809 | over every run spawned = completed + cancelled + active + pending, active followed by pending is in spawn order, owners never change, and a future is completed or dropped at a loop's end only for its owner |
| FutureAborts.AbortStaysHome | crates/js/src/promise.rs:683-706 | one abort, also from inside a poll, leaves every fate with its own loop if and only if it finds only the current owner's or unowned futures of the promise |
| FutureAborts.ActsStayHome | crates/js/src/promise.rs:683-706 | so does anything a loop does, a poll whose futures abort promises included, if and only if each of its aborts does |
| FutureAborts.FatesAtHomeExactlyIf | crates/js/src/promise.rs:683-706 | over every run of any number of loops, what became of each future was its own loop's doing if and only if each abort found only the aborting loop's or unowned futures |
| FutureAborts.AbortMayLeaveHome | crates/js/src/promise.rs:683-706 | one loop's abort drops another loop's future |
| FutureRuns.SurvivorsLoseAPoll | crates/js/src/promise.rs:792-802 | what a poll puts back is the other loops' futures, unchanged, and the loop's own with one poll less to go |
| FutureRuns.PollProgress | crates/js/src/promise.rs:779-809 | a poll leaves other loops' futures queued and unchanged, and brings each of the loop's own one poll closer to its end |
| FutureRuns.ActProgress | crates/js/src/promise.rs:779-809 | nothing any loop does takes a future further from its end |
| EventLoops.EventLoop.constructor | crates/core-runtime/src/event_loop.rs:487-503 | a new loop is empty, and its id is not 0 and differs from that of every loop before it |
| EventLoops.LoopIds.Issue | crates/core-runtime/src/event_loop.rs:488-491 | each loop id issued is new and not 0 |
| EventLoops.EventLoop.NextTaskId | crates/core-runtime/src/event_loop.rs:1247-1252 | returns the next id and advances by one |
| EventLoops.EventLoop.Enqueue | crates/core-runtime/src/event_loop.rs:509-570 | queues exactly one entry under a fresh id, ready or with a deadline as asked, and no live entry is overwritten |
| EventLoops.EventLoop.CancelIfQueued | crates/core-runtime/src/event_loop.rs:572-579 | removes exactly that task, and tells whether it was queued |
| EventLoops.EventLoop.QueueJsTimer | crates/core-runtime/src/event_loop.rs:581-600 | queues the timer's task under a fresh task id and maps to it a nonzero timer id that was not in use, and does not exactly when every id from the counter to the limit is in use |
| EventLoops.EventLoop.RequeueJsTimer | crates/core-runtime/src/event_loop.rs:602-615 | queues the task again under its own id exactly when its timer still maps to it, and keeps the indexes right if and only if that overwrites nothing another place lists, as for a task that is running |
| EventLoops.EventLoop.ClearJsTimer | crates/core-runtime/src/event_loop.rs:617-628 | forgets the timer and cancels its task, and ignores ids not in use |
| EventLoops.EventLoop.PerformAll | crates/core-runtime/src/event_loop.rs:509-663 | any operations running code performs leave the loop and the futures in the states the operations prescribe, with the invariants kept |
| EventLoops.EventLoop.SpawnPolled | crates/js/src/promise.rs:381-395 | the first poll's effects come before the spawn, a future that finished keeps its outcome for the loop's next poll, and the microtasks of one that did not are left to the caller's drain |
| EventLoops.EventLoop.Run | crates/core-runtime/src/event_loop.rs:1200-1208 | a task taken out runs its handler, its re-queue and its microtasks, and its re-queue overwrites no live entry |
| EventLoops.EventLoop.PopReady | crates/core-runtime/src/event_loop.rs:665-675 | takes out the first task of the dispatch order, or nothing if none is ready |
| EventLoops.EventLoop.AdvanceTimers | crates/core-runtime/src/event_loop.rs:677-682 | makes exactly the due timers ready and counts them |
| EventLoops.EventLoop.TimeToNextTimer | crates/core-runtime/src/event_loop.rs:684-692 | the shortest wait after which a timer is due, zero if one is, nothing if there is no timer to wait for |
| EventLoops.EventLoop.HasReady | crates/core-runtime/src/event_loop.rs:699-702 | true exactly when some entry is ready |
| EventLoops.EventLoop.IsAlive | crates/core-runtime/src/event_loop.rs:752-757 | true exactly when a task is queued, interest is held or a future the loop may drive is queued |
| EventLoops.EventLoop.RunTasks | crates/core-runtime/src/event_loop.rs:1196-1216 | the batch loop runs the tasks still queued when their turn comes, whatever earlier ones do to the loop |
| EventLoops.EventLoop.Step | crates/core-runtime/src/event_loop.rs:1173-1229 | the step over the indexes is the step over an unindexed store scanned and sorted, in its dispatches, its state, its effect on the futures and its outcome, and it leaves the batch buffer empty |
| EventLoops.OpKeepsInv | crates/core-runtime/src/event_loop.rs:509-663 | every operation keeps ids issued and timers apart, puts no old id back, and changes an old entry only by marking it ready |
| EventLoops.TaskKeepsInv | crates/core-runtime/src/event_loop.rs:1200-1208 | so does a running task, which may put back only itself |
| LoopRuns.TaskCancels | crates/core-runtime/src/event_loop.rs:1197-1203 | a queued task is still queued after another task ran if and only if that one did not cancel it |
| LoopRuns.BatchDispatches | crates/core-runtime/src/event_loop.rs:1195-1216 | a batch dispatches its tasks as they were when it was drawn up, in order, once each, without those cancelled before their turn |
| LoopRuns.ExpectedInOrder | crates/core-runtime/src/event_loop.rs:1190-1194 | what a batch dispatches is in strictly increasing key order, and was ready |
| LoopRuns.StepDispatches | crates/core-runtime/src/event_loop.rs:1182-1218 | a step dispatches exactly the tasks ready once timers are advanced at its start, once each, in key order, without those cancelled earlier in the batch, and nothing that became ready meanwhile |
| LoopRuns.StepRunsExactlyIf | crates/core-runtime/src/event_loop.rs:1182-1218 | a queued task runs in a step if and only if it is ready or due by then and no task before it in the batch cancels it |
| DispatchOrders.StepRunsInOrder | crates/core-runtime/src/event_loop.rs:349-354 | of any two tasks a step runs, the earlier is not a timer while the later is, or has the earlier deadline, or, all else equal, was allocated first |
| DispatchOrders.FirstQueuedRunsFirst | crates/core-runtime/src/event_loop.rs:1190-1194 | of two tasks queued as ready, or for the same time, a step runs the one queued first first, whatever happened in between |
| DispatchOrders.PopRunsTheFirst | crates/core-runtime/src/event_loop.rs:661-675 | popping takes the ready task that comes before all other ready ones, and nothing if none is ready |
| DispatchOrders.FirstQueuedPopsFirst | crates/core-runtime/src/event_loop.rs:661-675 | of two tasks just queued alike, popping takes the one queued first |
| DispatchOrders.QueuedRunsExactlyIf | crates/core-runtime/src/event_loop.rs:505-553 | a task just queued runs in the next step, as it was queued, if and only if it was queued as ready, signalled, or is a timer that is due, and is not cancelled before its turn |
| DispatchOrders.JsTimerRunsExactlyIf | crates/core-runtime/src/event_loop.rs:581-600 | so does the task of a JavaScript timer, at its deadline, and the id handed out maps to it |
| DispatchOrders.StepPerforms | crates/core-runtime/src/event_loop.rs:1196-1216 | a step performs, in dispatch order, exactly what its tasks and the microtasks after each of them do |
| KeepingAlive.InterestBalances | crates/core-runtime/src/event_loop.rs:723-725 | interest after any operations is at least what was taken beyond what was given up, and exactly that while nothing is given up that was not taken |
| KeepingAlive.InterestIsHeld | crates/core-runtime/src/event_loop.rs:747-757 | what was taken beyond what was given up since any moment is still held |
| KeepingAlive.StopIsRequested | crates/core-runtime/src/event_loop.rs:866-870 | a stop is requested after operations exactly if it was before or one of them requests it |
| KeepingAlive.StepFollows | crates/core-runtime/src/event_loop.rs:1196-1216 | interest and stop request after a step are what the operations its tasks perform make of them |
| LoopRuns.IntervalRepeatsExactlyIf | crates/core-runtime/src/event_loop.rs:602-615 | an interval is queued again after its run, with its new deadline, if and only if its handler left its timer in place and its microtasks do not cancel it |
| LoopRuns.PopRunsTheFirst | crates/core-runtime/src/event_loop.rs:665-675 | running what is popped is running the first task of the dispatch order alone |
| LoopRuns.RunKeepsInv | crates/core-runtime/src/event_loop.rs:1248-1252 | in every reachable state, each id in use was issued, so a fresh id overwrites nothing, and no two timers share a task |
| LoopRuns.ClearedNeverRuns | crates/core-runtime/src/event_loop.rs:617-628 | once a timer is cleared, in its own callback, in another task of the batch or between steps, no continuation of the run dispatches its task, and its re-queue is dropped |
| TimerReleases.ClearableWhileControlled | crates/core-runtime/src/event_loop.rs:617-628 | some timer id finishes a queued task for good when cleared if and only if a timer maps to the task |
| TimerReleases.HarmlessExactlyIf | crates/core-runtime/src/event_loop.rs:630-636 | releasing a timer id leaves every task that could be cleared so if and only if the id does not map to a queued task |
| TimerReleases.SettingPasses | crates/core-runtime/src/event_loop.rs:638-649 | the counter of the global that issued a timer id has passed it |
| TimerReleases.CountersGrow | crates/js/src/class.rs:883-890 | no counter moves back until one runs out |
| TimerReleases.NotGivenOutAgain | crates/core-runtime/src/event_loop.rs:638-649 | an id passed by the counters of all globals that set timers maps to nothing new |
| TimerReleases.OneShotReleasesItsOwn | crates/core-runtime/src/event_loop/timer.rs:163-168 | the release after a one-shot's handler is harmless if and only if the handler left its id on no other queued task, which holds if the globals it sets timers of have passed the id |
| TimerReleases.OneGlobalIsHarmless | crates/core-runtime/src/event_loop/timer.rs:163-168 | however long ago a one-shot's timer was set and whatever ran since, its release is harmless if its handler sets timers of its own global only, as long as no counter runs out |
| TimerReleases.FiredMayReleaseAnotherTimer | crates/core-runtime/src/event_loop/timer.rs:163-168 | a run of a new loop fed by two globals, in which a fired one-shot releases another timer's id, whose task then runs although its id is cleared |
| LoopRuns.TimersNeverEarly | crates/core-runtime/src/event_loop.rs:405-416 | over every run without signals by hand, no timer and no re-queued interval is dispatched before its deadline, neither by a step nor by popping it |
| Drivers.DriveByHand | crates/core-runtime/src/event_loop.rs:38-42 | any sequence of steps, pops, timer advances and outside operations dispatches on the indexed queue what it dispatches on the unindexed store, and leaves the same loop |
| Drivers.PollFutures | crates/core-runtime/src/event_loop.rs:1087-1096 | polls with the loop active, settles and drains with it active, restores the owner both times, and tells whether anything was left to settle or drain |
| Drivers.AwaitProgress | crates/core-runtime/src/event_loop.rs:1099-1147 | the wait polls the loop's futures round after round until one completes, a poll leaves microtasks, or an event ends it |
| Drivers.TakeTurn | crates/core-runtime/src/event_loop.rs:1048-1150 | one turn steps, then returns on a stop request, a caller stop or nothing left, in that order, and otherwise polls or waits |
| Drivers.RunUntil | crates/core-runtime/src/event_loop.rs:1039-1151 | the driver's loop makes these turns until one returns |
| Drivers.TurnReturnsWhenQuiet | crates/core-runtime/src/event_loop.rs:1060-1083 | each way a turn returns leaves what that way promises |
| DriverLaws.OutcomeTells | crates/core-runtime/src/event_loop.rs:1218-1228 | a step's outcome is progress exactly if it ran a task, idle exactly if it ran none and a task, interest or a future the loop may drive is left, and done otherwise |
| DriverLaws.StepDoes | crates/core-runtime/src/event_loop.rs:1052-1055 | a step's tasks act on the futures with the loop active, in dispatch order, and what they spawn is the loop's |
| DriverLaws.TurnReturnsExactlyIf | crates/core-runtime/src/event_loop.rs:1060-1083 | a turn returns for a stop request if and only if there is one, else for the caller if it wants to stop, else if nothing ran and nothing is left; a stop drops the loop's own futures only, and the others leave everything in place |
| DriverLaws.HeldInterestKeepsDriving | crates/core-runtime/src/event_loop.rs:752-757 | while more interest was taken than given up since any moment, by whatever the driver lets run, it does not return for want of work and no step is done |
| DriverLaws.GivenUpInterestIsGone | crates/core-runtime/src/event_loop.rs:747-750 | once all interest taken is given up none is held, and not before |
| DriverLaws.RequestedStopStops | crates/core-runtime/src/event_loop.rs:1063-1067 | a stop requested in any turn, by a task, a poll, a reaction or from outside, is what the driver returns for at the latest in the next |
| DriverLaws.PollAndSettleDoes | crates/core-runtime/src/event_loop.rs:1087-1096 | after a step that ran something, and in each round of a wait, the loop and the futures get the polls' effects and then what they left to run, with the loop active, and a wait ends exactly if a future finished or left microtasks |
| DriverLaws.PollAndSettleSpawns | crates/core-runtime/src/event_loop.rs:947-976 | what polls and reactions spawn is the polling loop's |
| DriverLaws.EventsAct | crates/core-runtime/src/event_loop.rs:1099-1104 | what happens during an await happens to the futures under the owner in force, or the owner of the loop that acts |
| DriverLaws.WokenTaskRuns | crates/core-runtime/src/event_loop.rs:1099-1104 | a task queued as ready from outside during an idle wait runs in the step that follows, unless that step cancels it first |
| Drivers.ReturnsWhenQuiet | crates/core-runtime/src/event_loop.rs:1033-1083 | whatever happens during awaits, the driver returns without a stop request or caller stop only with no task, no interest and no future it may drive, and after a stop request none of the loop's own futures is left |
| Drivers.PollsWhatItDrives | crates/js/src/promise.rs:785-802 | a poll visits exactly the unfinished futures the loop may drive, in spawn order |
| Drivers.ProgressedTurnPollsAll | crates/core-runtime/src/event_loop.rs:1079-1098 | in a turn whose step ran something, each of the loop's futures spawned by then is polled once before the next step, in spawn order and with no other loop's, unless the pause before the poll finished or dropped it |
| Drivers.TurnAdvances | crates/core-runtime/src/event_loop.rs:1079-1098 | each poll of a turn, the one after a step that ran something or those of an idle wait, brings each of the loop's futures one poll closer to its end |
| Drivers.NoStarvation | crates/core-runtime/src/event_loop.rs:1079-1098 | a future that needs k polls is finished or dropped once the driver polled k times, in idle waits or after steps that ran something, and every such step is followed by a poll, however busy the tasks keep the loop |
| Drivers.WaitAdvances | crates/core-runtime/src/event_loop.rs:1116-1147 | each poll of an idle wait brings each of the loop's futures one poll closer to its end |
| ActiveLoops.Cells.Run | crates/core-runtime/src/event_loop.rs:91-147 | code in nested blocks sees the scope its blocks make, every spawn carries that scope's owner, and loop, owner and reason are restored on every exit, also by a panic |
| ActiveLoops.SpawnsSeeTheirBlocks | crates/core-runtime/src/event_loop.rs:91-147 | whatever code runs, each spawn sees the scope made by exactly the blocks around it, and a panic only cuts the spawns short |
| ActiveLoops.SpawnsFollowTheirBlocks | crates/core-runtime/src/event_loop.rs:91-147 | each spawn of any code sees the loop of the innermost block around it, or none, is owned by the innermost block with a loop, and has the reason of the innermost block without one |
| ActiveLoops.NothingRunsAfterAPanic | crates/core-runtime/src/event_loop.rs:91-147 | a panic keeps what ran before it and stops what comes after, up through every block |
| ActiveLoops.OwnerIsTheActiveLoop | crates/core-runtime/src/event_loop.rs:127-147 | a spawn of any code belongs to the loop active where it is made, or to none where none is active, if and only if the innermost block around it does not leave a loop |
| ActiveLoops.OwnerOutlivesTheLoop | crates/core-runtime/src/event_loop.rs:127-147 | a spawn with no loop active belongs to a loop |
| Inheritance.CacheIsTheChain | crates/js/src/class.rs:1178-1203 | a coherent cache is the parent chain, which ends |
| Inheritance.RegistrationKeepsTheCache | crates/js/src/class.rs:1178-1203 | a registration keeps all cached lists right if and only if no class becomes its own parent and no direct subclass was cached with a different list |
| Inheritance.ParentsFirstIsRight | crates/js/src/class.rs:1803-1804 | parents-first registration in any order, any number of times, caches exactly each class's lineage |
| Inheritance.WalkReachesAncestors | crates/js/src/class.rs:1314-1334 | the accessor walk arrives exactly at ancestors, and its result composes the accessors of the chain up to the target |
| Inheritance.InheritanceRegistry.RegisterParentInfo | crates/js/src/class.rs:1178-1203 | caches the parent followed by the parent's cached ancestors, replacing an earlier registration |
| Inheritance.InheritanceRegistry.InheritsFrom | crates/js/src/class.rs:1162-1169 | true exactly when the target is on the parent chain |
| Inheritance.InheritanceRegistry.IsDerivedFromType | crates/js/src/builtins.rs:130-143 | true exactly for the class itself, for Object, and for classes on the parent chain |
| Inheritance.InheritanceRegistry.AncestorDataPtr | crates/js/src/class.rs:1314-1334 | the loop ends with the walk's result, and with nothing for an object without data or a target not on the chain |
| Inheritance.InheritanceRegistry.PrivateDataPtr | crates/js/src/class.rs:1296-1310 | data is found exactly when the brand check the cache answers holds |
| Borrowing.BorrowCell.AcquireShared | crates/js/src/class.rs:541-552 | granted exactly when nothing is mutably borrowed, and counted |
| Borrowing.BorrowCell.AcquireMut | crates/js/src/class.rs:554-561 | granted exactly when nothing is borrowed |
| Borrowing.BorrowCell.MapRef | crates/js/src/class.rs:643-652 | the projected guard takes the borrow over, and the flag does not move |
| Borrowing.BorrowCell.DropRef | crates/js/src/class.rs:663-669 | gives up exactly one shared borrow |
| Borrowing.BorrowCell.DropRefMut | crates/js/src/class.rs:711-717 | gives up the mutable borrow |
| Borrowing.ApplyKeepsDiscipline | crates/js/src/class.rs:546-561 | every use keeps readers counted and a writer alone |
| Borrowing.FlagCountsGuards | crates/js/src/class.rs:515-522 | after any uses in any order the flag is -1 exactly while one mutable guard and nothing else is live and n exactly while n shared guards are, and a borrow is granted exactly when no live guard conflicts |
| Borrowing.GuardsHoldWhatTheyName | crates/js/src/class.rs:624-652 | a granted borrow is a new guard on the view asked for, and its projection the same guard on a part |
| ModulePaths.LexicallyNormalize | crates/core-runtime/src/module.rs:592-611 | the loop computes the normalisation the lemmas below are about |
| ModulePaths.NormalizedDenotesTheSame | crates/core-runtime/src/module.rs:588-591 | a path and its normal form lead to the same place from every directory of a tree without symlinks |
| ModulePaths.NormalizedIsNormal | crates/core-runtime/src/module.rs:598-607 | the result is an optional root, then only `..`, then only names, and is absolute exactly when the path is |
| ModulePaths.NormalizeIsIdempotent | crates/core-runtime/src/module.rs:592-611 | normalising again changes nothing |
| ModulePaths.LocateRelative | crates/core-runtime/src/module.rs:598-607 | a relative normal form goes up by its `..` and then down its names |
| ModulePaths.SamePlaceSameForm | crates/core-runtime/src/module.rs:588-591 | two relative paths lead to the same place from every deep enough directory if and only if they have the same normal form |
| ModulePaths.KeepsWhatClimbs | crates/core-runtime/src/module.rs:598-607 | the `..` an absolute path's normal form keeps are exactly those the path meets at the root |
| ModulePaths.AbsoluteSameFormExactlyIf | crates/core-runtime/src/module.rs:588-591 | two absolute paths have one normal form if and only if they lead to the same place and meet the root with equally many `..` |
| ModulePaths.OneKeyPerDirectory | crates/core-runtime/src/module.rs:588-591 | absolute paths that never climb above the root have one normal form per directory |
| ModulePaths.RootHasTwoForms | crates/core-runtime/src/module.rs:598-607 | one directory has two normal forms |
| ModuleRegistry.ModuleLoader.ResolveFileModule | crates/core-runtime/src/module.rs:436-509 | a file gets its cached module or the one now compiled, under a key by kind, and a JSON file is refused to a JavaScript import |
| ModuleRegistry.ModuleLoader.Run | crates/core-runtime/src/module.rs:319-347 | an import, registration, entry or clear, with whatever runs inside a registration, has the loads and leaves the registry its specification gives |
| ModuleRegistry.KindsNeverMix | crates/core-runtime/src/module.rs:449-455 | a JavaScript import never gets a module compiled as JSON nor the reverse, through nested and failing registrations, if no name is `json:` followed by an absolute path |
| ModuleRegistry.KindsNeverMixInAll | crates/core-runtime/src/module.rs:319-328 | the same over every sequence of operations |
| ModuleRegistry.NamesDecideKinds | crates/core-runtime/src/module.rs:837-844 | after storing a JavaScript module under a name, every import of every later run gets a module of its kind if and only if the name is not `json:` followed by an absolute path |
| ModuleRegistry.ShadowingMixes | crates/core-runtime/src/module.rs:449-465 | a JavaScript module stored under `json:` and an absolute path is what a JSON import of that path gets |
| ModuleRegistry.FileIsOneModule | crates/core-runtime/src/module.rs:457-465 | while nothing rebinds or removes its key, every import resolved to a file as a kind gets the one registered module |
| ModuleRegistry.FileIsOneModuleInAll | crates/core-runtime/src/module.rs:457-465 | the same over every sequence of operations |
| ModuleRegistry.KeepsItsModuleExactlyIf | crates/core-runtime/src/module.rs:457-465 | a file keeps its module through a run of operations, nested and failing ones included, if and only if none names the file's key or clears the registry |
| ModuleRegistry.FirstCompiledStays | crates/core-runtime/src/module.rs:499-508 | the module of the first import to compile a file is what a later import gets if and only if nothing between names the file's key or clears the registry |
| ModuleRegistry.NameIsFound | crates/core-runtime/src/module.rs:319-328 | while a name without the `json:` prefix is bound to a module and nothing touches it, every JavaScript import of it gets the module and goes to no file, also within registrations |
| ModuleRegistry.NativeIsFound | crates/core-runtime/src/module.rs:705-725 | a native or synthetic module is what its name gets, while it is registered and afterwards, whatever file the name resolves to, if and only if its registration succeeded |
| ModuleRegistry.EntryIsFound | crates/core-runtime/src/module.rs:515-572 | an entry module is what an import of its key gets, and stays the entry until another is recorded or its key is touched |
| ModuleRegistry.RefusedExactlyIf | crates/core-runtime/src/module.rs:439-465 | an import that goes to a file gets nothing if and only if it asks for a JSON file as JavaScript, or the file is neither registered nor compiles |
| ModuleRegistry.JsonByExtension | crates/core-runtime/src/module.rs:439-443 | a JSON file is one named by something and `.json` in any case |
| ModuleRegistry.EveryImportLoads | crates/core-runtime/src/module.rs:319-347 | every import is answered once, those within registrations included |
| ModuleRegistry.UnresolvedGetsNothing | crates/core-runtime/src/module.rs:330-346 | an import that no name answers and that resolves to no file fails and changes nothing |
| ModuleRegistry.NativeMayReplaceAFile | crates/core-runtime/src/module.rs:705-725 | a failing native registration named like a file replaces the file's module and then removes it |
| LoadOutcomes.ModuleTls.LoadResolved | crates/js/src/module.rs:227-233 | records a loaded graph |
| LoadOutcomes.ModuleTls.LoadRejected | crates/js/src/module.rs:235-249 | records a failed graph and leaves the failure pending |
| LoadOutcomes.ModuleTls.LoadRequestedModules | crates/js/src/module.rs:259-291 | the one cell with save and restore gives every load of a nested tree the outcome of its own callbacks, or the failure to conclude, and leaves the enclosing load's outcome in the cell |
| LoadOutcomes.OwnReportIsTheLast | crates/js/src/module.rs:209-212 | a load's outcome is the last report among its own events, and none exactly if there was none |
| LoadOutcomes.LoadReturns | crates/js/src/module.rs:259-291 | a load succeeds if and only if its last own report is a resolution, fails if and only if that is a rejection or there is none and an exception is pending, and otherwise did not conclude and leaves an exception pending |
| LoadOutcomes.LastWordOnPending | crates/js/src/module.rs:235-249 | what is pending is up to the last rejection, throw, clearing or nested load |
| LoadOutcomes.NestedLoadReturnsItsOwn | crates/js/src/module.rs:263-265 | a nested load returns what it would alone |
| LoadOutcomes.NestedLoadsDoNotLeak | crates/js/src/module.rs:263-265 | a nested load anywhere in a load that reports does not change that load's outcome |
| ByteSizes.ValueOfDecimal | crates/core-runtime/src/config.rs:298-307 | a printed count reads back as the count |
| ByteSizes.PrintsTheLargestUnit | crates/core-runtime/src/config.rs:291-307 | a count prints in the largest binary unit it is a whole number of, and in bytes if there is none |
| ByteSizes.UnitsAreKnown | crates/core-runtime/src/config.rs:326-335 | the units accepted are exactly the eleven spellings, each with its multiple |
| ByteSizes.ParseMeans | crates/core-runtime/src/config.rs:313-340 | a count and a unit, with blanks around either and in any case, parse to their exact product, or to the error for a bad unit, a count too long or a product too large |
| ByteSizes.AcceptedIsExact | crates/core-runtime/src/config.rs:313-340 | any text accepted is such a count and unit, and yields their exact product within 64 bits |
| ByteSizes.RoundTrip | crates/core-runtime/src/config.rs:298-340 | every 64-bit count prints as text that parses back to it |
| Clocks.ReadsTrueExactlyIf | crates/platform/src/clock.rs:74-79 | over any chain of instances, each reading is all that was recorded before plus the host's reading, which never decreases, if and only if all of these fit 64 bits |
| Clocks.Clock.RecordSnapshotReading | crates/platform/src/clock.rs:91-93 | stores the host's reading and leaves the offset |
| Clocks.Clock.ResumeFromSnapshot | crates/platform/src/clock.rs:100-104 | moves the stored reading to the offset, once, and returns it |
| Clocks.Clock.Live | crates/platform/src/clock.rs:77-104 | an instance's readings and the cells it leaves continue the timeline |
| Clocks.OneTimeline | crates/platform/src/clock.rs:74-104 | over any chain of snapshots and resumptions, readings never decrease, and offset and snapshot add up to what was recorded |
| Clocks.OffsetIsTheSumIfItFits | crates/platform/src/clock.rs:100-104 | the offset is the sum of the recorded readings if and only if that sum fits 64 bits |
| Clocks.ResumingAgain | crates/platform/src/clock.rs:95-99 | resuming again changes nothing |
| Clamping.ConvertsUnlessTieIsLost | crates/js/src/conversion.rs:302-340 | the result is what ConvertToInt in section 3.2.4 of Web IDL asks for, for every number and integer type, if and only if the number is not a negative tie with an odd lower neighbour |
| Clamping.BoundsFollowTheWidth | crates/js/src/conversion.rs:120-129 | the bounds are those of the type's width, and of exactly representable integers for 64 bits |
| Clamping.NearestEvenIsUnique | crates/js/src/conversion.rs:321-326 | rounding to nearest with ties to even determines the result |
| Clamping.ClampIsMonotone | crates/js/src/conversion.rs:302-340 | elsewhere the conversion preserves order and stays within the type's bounds |
| Clamping.MinusOneHalfBecomesMinusTwo | crates/js/src/conversion.rs:330-337 | a tie next to zero is moved away from it, below the image of a smaller number |

## Left out

- EventLoops.EventLoop.QueueJsTimer: where the program stops because a counter has run out, the result is none and the model goes on, so its runs are those of the program up to there, and more.
- TimerReleases.OneShotReleasesItsOwn: whether an embedder lets two globals feed one loop is up to it.
- EventLoops.EventLoop.NextTaskId: ids are unbounded, where the program's are 64 bits wide.
- EventLoops.EventLoop.Step: one step at a time per loop; a task that steps its own loop from inside is not modelled.
- Drivers.RunUntil: runs for as many turns as it is given choices for; that the driver returns at all depends on the tasks and is not claimed.
- Drivers.AwaitProgress: wakers, sleeping and notification are not modelled; what ends a wait is a choice, so is what other loops and the host do meanwhile.
- Drivers.PollFutures: a poll's microtasks drain future by future in poll order, without interleaving with those of other futures.
- Futures.PromiseTls.PollPendingFutures: a poll that itself polls the same queues is not modelled; cancellations from inside a poll are, and miss the detached futures as in the program.
- TimerIds.IssuedOnce: ends where the counter runs out, at which the program panics.
- Borrowing.FlagCountsGuards: the flag is unbounded, and present only in debug builds of the program.
- Inheritance.InheritanceRegistry.AncestorDataPtr: pointers are integers and accessors are arbitrary functions on them; what they point to is not modelled.
- ModulePaths.LexicallyNormalize: works on components; splitting a path string, Windows prefixes and symlinks are left out.
- ModuleRegistry.ModuleLoader.Run: resolving a specifier to a canonical path, reading and compiling are arguments of the import; an entry registration that fails before it stores anything is no operation.
- LoadOutcomes.ModuleTls.LoadRequestedModules: the engine is any sequence of callbacks, nested loads and exceptions raised or cleared.
- ByteSizes.ParseMeans: error texts are reduced to malformed or too large; text is a sequence of characters.
- Clocks.OneTimeline: requires the total to fit 64 bits; `ReadsTrueExactlyIf` says what readings are without that. The coarse clock and the arithmetic of instants are left out.
- Clamping.ConvertsUnlessTieIsLost: arithmetic is over exact reals, so the rounding of adding one half near the largest floating-point values is left out, as is `enforce_range`.
- SpiderMonkey, garbage collection, realms and rooting, except as sequences of operations.
- Where work was queued (origins), pending-work reports, the snapshot idle check and pending sends.
- Interest handles are a counter; which handle releases it is left out.
- Exception reporting, unhandled rejections, finalization callbacks and nested-timeout clamping.
- Resolution of packages, HTTP backends, the command line, builtins and build-time lints.
