# node_summit_17 task scheduling, modelled in Dafny

The repository shows two ways to run a list of tasks that depend on each
other.

- **The in-process scheduler** (`task_scheduler/scheduler.js`). `schedule(tasks)`
  keeps three ordered lists: `todo`, `live` and `done`. `fill` forks tasks
  whose dependencies are all finished, while fewer than `numCore - 1` are
  running. Tasks it cannot start yet are requeued at the tail, marked
  `waiting`. An event handler reacts to the children's `exit`, `error`,
  `close` and `disconnect` events. It moves a finished task from `live` to
  `done`, then resolves the promise, waits, or refills.
- **The distributed workers** (`distributed/jobs/worker.js` and
  `distributed/task_worker/worker.js`). Each worker makes repeated passes
  over a Redis store that holds a `ready` gate and the `todo`, `live` and
  `done` lists of labels. One pass pops a label, requeues it or runs it,
  and moves it to `done`. The jobs worker first builds its label-to-module
  map from the task files. Labels come from `labelFromTaskPath`
  (`distributed/jobs/utils/load.js`) when a module declares none. Both
  workers print durations with the same `getTime` formatter.

Files:

| file | module | what it holds |
|---|---|---|
| `wrappers.dfy` | `Wrappers` | `Option` |
| `decimal.dfy` | `Decimal` | JavaScript's number-to-string for naturals, and its inverse |
| `scheduler_state.dfy` | `SchedulerState` | task records and `prepare`, `depsOk`, `workToDo`, `spaceForWork`, `moveToDone`; the `fill` loop as a recursive function, with its lemmas |
| `scheduler.dfy` | `Scheduler` | the handler as a pure step on a whole run, the run invariant, and the class `TaskScheduler` whose fields the handler and the `Fill` loop update in place |
| `redis_store.dfy` | `RedisStore` | the store value, LPOP, LREM with count 0, `every` |
| `jobs_worker.dfy` | `JobsWorker` | one pass of the jobs worker's `run`, and `load`'s task map |
| `task_worker.dfy` | `TaskWorker` | one pass of the task worker's `run`, as written and as intended |
| `load.dfy` | `TaskLoad` | `labelFromTaskPath` with `lastIndexOf`, `slice` and string `replace` |
| `time_format.dfy` | `TimeFormat` | `getTime`, and a reader for its output |

How the model is built:

- `TaskScheduler.Fill` runs the source's `while` loop on the class fields.
  It is proved equal to the function `FillSpec`.
- `Handle` is proved equal to the pure step `Step`.
- The lemmas about `FillSpec` and `Step` state what the scheduler promises.
  The run invariant `Inv` is kept by every handler call. It says:
  - no label is lost or duplicated;
  - `live` stays within capacity;
  - every live task had its dependencies met;
  - `done` is in dependency order;
  - a resolved run is empty.
- Each worker pass is a function from a store to the new store and the way
  the pass ends. What a task's `run` produced is an input to that function.

## Model

| member | source | states |
|---|---|---|
| SchedulerState.Prepare | task_scheduler/scheduler.js:185-196 | same length and order; a falsy label becomes `task_<index>`; every other field and every non-empty label is kept |
| SchedulerState.PrepareFrom | task_scheduler/scheduler.js:186-194 | the same mapping with indices counted from an offset |
| SchedulerState.AutoLabel | task_scheduler/scheduler.js:191 | the label `task_<index>`; `AutoLabelInjective` and `PrepareLabels` state that distinct indices give distinct labels |
| SchedulerState.PrepareLabels | task_scheduler/scheduler.js:185-196 | after `prepare`, no label is empty, and two tasks that were both unlabelled get different labels |
| SchedulerState.PrepareLabelled | task_scheduler/scheduler.js:187-191 | a list whose labels are all non-empty comes back unchanged |
| SchedulerState.AutoLabelInjective | task_scheduler/scheduler.js:191 | `task_<i>` and `task_<j>` differ when `i != j` |
| Decimal.NatToString | task_scheduler/scheduler.js:191 | the decimal text of a natural is non-empty, all digits, and has no leading zero unless the number is 0 |
| Decimal.ParseNatToString | task_scheduler/scheduler.js:191 | reading the decimal text back gives the number |
| Decimal.NatToStringInjective | task_scheduler/scheduler.js:191 | different numbers print differently |
| SchedulerState.FindIndex | task_scheduler/scheduler.js:209 | `findIndex` on labels: the first position with the label, or -1 when no position has it |
| SchedulerState.AllDone | task_scheduler/scheduler.js:314 | `every(dep => findIndex(...) > -1)` holds iff each dependency is the label of some task in `done` |
| SchedulerState.DepsOk | task_scheduler/scheduler.js:309-315 | true iff `deps` is missing, or each dependency (none, for an empty list) is the label of a task in `done` |
| SchedulerState.DepsOkGrows | task_scheduler/scheduler.js:309-315 | a task that may run stays runnable when `done` grows |
| SchedulerState.AnyNotWaiting | task_scheduler/scheduler.js:331 | `some(item => !item.waiting)` holds iff some task is not waiting |
| SchedulerState.WorkToDo | task_scheduler/scheduler.js:326-332 | false on an empty `todo`, otherwise true iff some task is not waiting |
| SchedulerState.SpaceForWork | task_scheduler/scheduler.js:340-342 | a free slot while `live` holds fewer than `numCore - 1` tasks; `FillWithinCapacity`, `FillStopsFullOrBlocked` and `FillSingleCoreDispatchesNothing` state what it bounds |
| SchedulerState.ClearWaiting | task_scheduler/scheduler.js:129 | every waiting flag cleared, order and labels kept; `ClearWaitingTwice` states both |
| SchedulerState.FillLoop | task_scheduler/scheduler.js:135-173 | the `while` loop of `fill`; `StepDecreases` proves it ends, and `FillSpecShape`, `FillDispatchesOnlyReady`, `FillPreservesLabels` and `FillStopsFullOrBlocked` state its result |
| SchedulerState.FillSpec | task_scheduler/scheduler.js:123-176 | `fill`: clear the flags, then the loop; the lemmas named in the `FillLoop` row and `FillIdempotent`, `FillNoSpace`, `FillAllBlocked` state what it does |
| SchedulerState.StepDecreases | task_scheduler/scheduler.js:135-147 | the loop's measure goes down on each turn: first the count of non-waiting tasks, then the position of the first one |
| SchedulerState.Ready | task_scheduler/scheduler.js:143-172 | the tasks the loop dispatches, each with its dependencies met |
| SchedulerState.Requeued | task_scheduler/scheduler.js:143-146 | the tasks the loop requeues, each marked waiting and each with unmet dependencies |
| SchedulerState.ReadyRequeuedLabels | task_scheduler/scheduler.js:138-172 | every visited task is either dispatched or requeued, none twice: the label multisets add up |
| SchedulerState.FillSpecShape | task_scheduler/scheduler.js:129-175 | `fill` visits some prefix of the cleared `todo`; the rest stays ahead of the requeued tasks, and the ready ones are appended to `live` |
| SchedulerState.FillDispatchesOnlyReady | task_scheduler/scheduler.js:143-172 | `fill` only appends to `live`, and only tasks whose dependencies are in `done` |
| SchedulerState.FillPreservesLabels | task_scheduler/scheduler.js:129-175 | the label multiset over `todo` and `live` is kept |
| SchedulerState.FillStopsFullOrBlocked | task_scheduler/scheduler.js:135 | on return, either `live` holds at least `numCore - 1` tasks, or every task left is waiting with unmet dependencies |
| SchedulerState.FillWithinCapacity | task_scheduler/scheduler.js:135-172 | `live` ends with at most max(its initial size, `numCore - 1`) tasks |
| SchedulerState.FillSingleCoreDispatchesNothing | task_scheduler/scheduler.js:340-342 | with `numCore <= 1` nothing is ever dispatched |
| SchedulerState.FillBlockedDispatchesNothing | task_scheduler/scheduler.js:135-147 | when no task can run, `fill` dispatches nothing |
| SchedulerState.ClearWaitingTwice | task_scheduler/scheduler.js:129 | clearing the flags twice is clearing them once, and labels are kept |
| SchedulerState.FillNoSpace | task_scheduler/scheduler.js:129-135 | with `live` full, `fill` only clears the waiting flags |
| SchedulerState.FillAllBlocked | task_scheduler/scheduler.js:135-147 | with a free slot and no runnable task, every task is visited once and requeued, in order, marked waiting |
| SchedulerState.AllBlockedRequeued | task_scheduler/scheduler.js:135-147 | in that case the new `todo` is the requeued list and `live` is unchanged |
| SchedulerState.FillIdempotent | task_scheduler/scheduler.js:129-147 | a second `fill` with `done` unchanged keeps `live` and the label order of `todo`; only waiting flags change |
| SchedulerState.MovePosition | task_scheduler/scheduler.js:209-216 | the index `get`/`splice` address: the first live task with the label, or the last one when no task has it (Immutable.js reads -1 as the last) |
| SchedulerState.MoveToDone | task_scheduler/scheduler.js:208-229 | an empty `live` is unchanged; otherwise one task is spliced out of `live` and appended to `done`: the first with the label, or the last live task when the label is unknown |
| SchedulerState.MoveToDoneMovesOne | task_scheduler/scheduler.js:208-229 | sizes change by -1/+1, `done` only gains at its end, and the label multiset over the two lists is kept |
| SchedulerState.MoveAtFacts | task_scheduler/scheduler.js:216-226 | removing position `k` and appending it to `done` keeps the labels and the prefix of `done` |
| SchedulerState.MoveToDoneUnknownLabelMovesLast | task_scheduler/scheduler.js:209-216 | finishing unknown label `c` with `live = [a, b]` moves `b` |
| Scheduler.Schedule | task_scheduler/scheduler.js:40-108 | `schedule` up to its first return; `ScheduleInv` states that it starts in the invariant and an empty list resolves at once |
| Scheduler.AfterEvent | task_scheduler/scheduler.js:86-102 | resolve, wait or refill; `AfterEventInv`, `StepResolves` and `AfterEventWaits` state what it keeps, when it resolves and when it waits |
| Scheduler.AfterEventWaits | task_scheduler/scheduler.js:94-98 | with `todo` empty and a task still live, the handler does nothing more: the run is unchanged |
| Scheduler.Step | task_scheduler/scheduler.js:68-103 | one call of the handler; `StepInv`, `StepMonotone`, `StepResolves`, `StepErrorRejects`, `StepExitFinishes` and `StepStuck` state its promises |
| Scheduler.Inv | task_scheduler/scheduler.js:40-176 | the run invariant: labels kept, capacity, live tasks runnable, `done` in dependency order, a resolved run empty; `StartInv`, `ScheduleInv` and `StepInv` prove it is kept |
| Scheduler.SettleOnce | task_scheduler/scheduler.js:75-91 | a promise settles only once: after a `resolve` or `reject`, later ones change nothing, and it stays pending only while every call so far was pending |
| Scheduler.ErrorAsWrittenAgainstStep | task_scheduler/scheduler.js:259-266 | `error()` as written (it reads `task.child`, which is undefined) gets through iff no task is live, and then equals the corrected step; with a task live and the promise pending it throws, while the corrected step rejects and disconnects that task |
| Scheduler.ErrorAsWrittenThrows | task_scheduler/scheduler.js:262 | one live task: as written the call throws, while the corrected step rejects with the message and disconnects that task |
| Scheduler.StartInv | task_scheduler/scheduler.js:53-55 | a freshly prepared run satisfies the invariant |
| Scheduler.FillInv | task_scheduler/scheduler.js:123-176 | `fill` keeps the invariant |
| Scheduler.ScheduleInv | task_scheduler/scheduler.js:40-108 | `schedule` starts in a state satisfying the invariant, with `done` empty; an empty list resolves at once with `undefined`, any other leaves the promise pending |
| Scheduler.AfterEventInv | task_scheduler/scheduler.js:86-102 | the code after the `switch` keeps the invariant |
| Scheduler.MoveToDoneInv | task_scheduler/scheduler.js:208-229 | `moveToDone` keeps the invariant, including the dependency order of `done` |
| Scheduler.MoveAtKeepsOrder | task_scheduler/scheduler.js:216-226 | moving a runnable live task to `done` keeps the other live tasks runnable and `done` in dependency order |
| Scheduler.StepInv | task_scheduler/scheduler.js:68-103 | every handler call keeps the invariant |
| Scheduler.StepMonotone | task_scheduler/scheduler.js:68-103 | `done` only grows at its end, a settled promise stays settled, and the set of disconnected children only grows |
| Scheduler.StepResolves | task_scheduler/scheduler.js:86-102 | after `exit`, `close` or `disconnect` the promise resolves iff `todo` and `live` are both empty, with value `done`; it never rejects there |
| Scheduler.StepErrorRejects | task_scheduler/scheduler.js:73-75 | `error` rejects with `Error with label <label>: <res>`, asks every live child to disconnect, and leaves the lists unchanged |
| Scheduler.StepExitFinishes | task_scheduler/scheduler.js:70-71 | `exit` for a live label moves its first live record to the end of `done` |
| Scheduler.StepStuck | task_scheduler/scheduler.js:94-102 | with nothing live and no runnable task, no non-error event makes progress: the run stays pending |
| Scheduler.ExampleFirstFill | task_scheduler/examples/example1.js:11-35 | on four CPUs, the example's first `fill` requeues `task1` (it waits on `task3`) and dispatches `task2`, `task3` and `task4` |
| Scheduler.FiveTaskFill | task_scheduler/scheduler.js:135-173 | the loop on five fresh tasks with three slots, the first blocked and the next three runnable |
| Scheduler.ExampleTask3Exits | task_scheduler/examples/example1.js:11-35 | then `task3` exits: it goes to `done`, `task5` starts, and `task1` stays queued |
| Scheduler.TaskScheduler.constructor | task_scheduler/scheduler.js:40-108 | `schedule(tasks)`: the state is `Schedule(tasks)`, the invariant holds, and the labels are those of the prepared list |
| Scheduler.TaskScheduler.Fill | task_scheduler/scheduler.js:123-176 | the loop leaves `(todo, live)` equal to `FillSpec` of the old lists; `done` is untouched; the invariant is kept |
| Scheduler.TaskScheduler.DisconnectAll | task_scheduler/scheduler.js:261-263 | every live task's label is added to `disconnected` |
| Scheduler.TaskScheduler.AfterEventStep | task_scheduler/scheduler.js:86-102 | resolves, waits or refills, as `AfterEvent` does |
| Scheduler.TaskScheduler.Exit | task_scheduler/scheduler.js:70-72 | the `exit` case, as `Step` does it |
| Scheduler.TaskScheduler.Error | task_scheduler/scheduler.js:73-75 | the `error` case, corrected, as `Step` does it |
| Scheduler.TaskScheduler.Handle | task_scheduler/scheduler.js:68-103 | the new state is `Step` of the old one; the invariant and the starting labels are kept |
| RedisStore.Truthy | distributed/jobs/worker.js:48-56 | JavaScript truthiness of a GET or LPOP reply: null and "" are falsy; `StepGates`, `StepMarkersFault` and `StepFalsyPop` state the gates it decides |
| RedisStore.LPop | distributed/jobs/worker.js:55 | LPOP yields null exactly on an empty list; pushing the popped value back on the left restores the list; no value is lost |
| RedisStore.RemoveAll | distributed/jobs/worker.js:95 | LREM with count 0 removes every copy of the label and keeps the count of every other label |
| RedisStore.RemoveAllConcat | distributed/jobs/worker.js:95 | LREM of a concatenation is the concatenation of the LREMs of its parts, so the labels it keeps stay in order |
| RedisStore.RemoveAllSingle | distributed/jobs/worker.js:95 | on one element LREM drops it iff it is the label; with `RemoveAllConcat` this fixes the result |
| RedisStore.RemoveAllAbsent | distributed/jobs/worker.js:95 | LREM of an absent label changes nothing |
| RedisStore.RemoveAllAppended | distributed/jobs/worker.js:80-95 | pushing the label and then removing every copy equals removing every copy from the original list |
| RedisStore.Every | distributed/jobs/worker.js:168 | `every(dep => done.indexOf(dep) > -1)` holds iff each dependency is in `done` |
| JobsWorker.DepsOk | distributed/jobs/worker.js:163-169 | true when `deps` is missing, otherwise iff every dependency is in `done` (an empty list is true) |
| JobsWorker.Step | distributed/jobs/worker.js:45-106 | one pass of `run`; `StepMonotone`, `StepGates`, `StepUnknownLabelLost`, `StepRequeues`, `StepFinishes` and `StepThrowLeavesLive` state every path |
| JobsWorker.StepMonotone | distributed/jobs/worker.js:45-106 | `ready` is never written, and `done` grows by at most one label, at its end |
| JobsWorker.StepGates | distributed/jobs/worker.js:47-61 | a falsy `ready` sleeps with the store unchanged, and only then; an empty queue exits with the store unchanged; a popped "" exits with only the pop applied |
| JobsWorker.StepUnknownLabelLost | distributed/jobs/worker.js:55-67 | a label with no module errors with the source's message after it has left `todo`, so it is lost |
| JobsWorker.StepRequeues | distributed/jobs/worker.js:69-77 | unmet dependencies move the label from the head to the tail of `todo`; `live` and `done` are untouched |
| JobsWorker.StepFinishes | distributed/jobs/worker.js:80-96 | a run that returns: the label goes to the end of `done` and leaves `live` entirely, other live labels are kept, and for a lone worker the label pool is kept |
| JobsWorker.LoneWorkerFinish | distributed/jobs/worker.js:80-96 | after the push to `live`, the removal and the push to `done`, the label pool is kept when the label was not already live |
| JobsWorker.StepThrowLeavesLive | distributed/jobs/worker.js:80-104 | a run that throws ends in `erred` with the label left in `live` |
| JobsWorker.KeyOf | distributed/jobs/worker.js:135-139 | a module's own label, else the one derived from its path; `TaskMapEntries` states that the map holds each module under it |
| JobsWorker.MapOf | distributed/jobs/worker.js:141 | the map a run of assignments leaves; `MapOfDomain` and `MapOfLastWins` state its keys and values |
| JobsWorker.TaskMap | distributed/jobs/worker.js:133-142 | the map the `forEach` of `load` leaves; `TaskMapEntries` states it, and `BuildTaskMap` is the loop proved equal to it |
| JobsWorker.MapOfDomain | distributed/jobs/worker.js:141 | a key is in the map iff some assignment wrote it |
| JobsWorker.MapOfLastWins | distributed/jobs/worker.js:141 | the value under a key comes from the last assignment to it |
| JobsWorker.TaskMapEntries | distributed/jobs/worker.js:133-142 | a label is in the map iff some file yields it; its module comes from the last such file and carries that label |
| JobsWorker.BuildTaskMap | distributed/jobs/worker.js:133-142 | the `forEach` loop builds exactly `TaskMap` |
| JobsWorker.Load | distributed/jobs/worker.js:113-152 | an empty listing and an empty file list each exit; otherwise the map holds exactly the files' labels, each module under its own label |
| TaskWorker.DepsOk | distributed/task_worker/worker.js:159-162 | true iff `deps` is present and every dependency is in `done` |
| TaskWorker.DepsOkDiffer | distributed/task_worker/worker.js:159-162 | the two workers' `depsOk` differ exactly on a module without `deps` |
| TaskWorker.StageOne | distributed/task_worker/worker.js:49-114 | stage 1; `NoDepsStageOne`, `StepClosedGateDropsHead`, `StepUnknownLabelLost`, `StepFalsyPop`, `StepRequeues`, `StepThrowLeavesLive` and `StepFinishes` state its paths |
| TaskWorker.StageTwo | distributed/task_worker/worker.js:116-145 | stages 2 and 3 as written; `StepMarkersFault`, `StartedMarkerWordStrands` and `StageTwoDiffers` state how it ends |
| TaskWorker.Step | distributed/task_worker/worker.js:42-148 | one pass as written; the `StageOne` and `StageTwo` rows name its lemmas |
| TaskWorker.StepIntended | distributed/task_worker/worker.js:42-148 | one pass with the marker read corrected; `StepIntendedOutcomes` and `StageTwoDiffers` relate it to the code |
| TaskWorker.NoDepsStageOne | distributed/task_worker/worker.js:80-99 | with no module declaring `deps`, stage 1 never starts a task; a known label moves from head to tail |
| TaskWorker.NoDepsNeverRuns | distributed/task_worker/worker.js:92-99 | the worker's own task modules have no `deps`, so no pass moves anything to `live` or `done`; every pass requeues a known label, and as written the pass then faults on the clock |
| TaskWorker.StepClosedGateDropsHead | distributed/task_worker/worker.js:49-65 | the pop comes with the ready read: a closed gate drops the head of `todo` and changes nothing else |
| TaskWorker.GateOrderDiffers | distributed/task_worker/worker.js:49-65 | on a closed gate the jobs worker keeps the store, while this worker loses one label |
| TaskWorker.StepMarkersFault | distributed/task_worker/worker.js:116-125 | as written, every marker pass (closed gate, empty queue, requeue) ends in the `hrtime(null)` TypeError |
| TaskWorker.EmptyQueueFaults | distributed/task_worker/worker.js:68-76 | an open gate and an empty queue: as written the pass faults; as intended it exits |
| TaskWorker.StageTwoDiffers | distributed/task_worker/worker.js:116-145 | the corrected stage 2 departs from the code exactly on a marker and on a started task whose `run` resolved with "sleep" or "exit" |
| TaskWorker.StartedMarkerWordStrands | distributed/task_worker/worker.js:102-121 | as written, a task whose `run` resolves with "sleep" or "exit" stays in `live`, never reaches `done`, and the pass sleeps or exits; the corrected pass moves it to `done` |
| TaskWorker.StepUnknownLabelLost | distributed/task_worker/worker.js:80-87 | a popped label with no module rejects with the source's message after leaving `todo`, in the code and as intended; the label is lost |
| TaskWorker.StepFalsyPop | distributed/task_worker/worker.js:68-77 | an empty queue or a popped "" changes only `todo` by the pop; as intended the pass exits, as written it faults on the clock |
| TaskWorker.StepRequeues | distributed/task_worker/worker.js:89-99 | `deps` present but unmet: the label moves from head to tail of `todo`, `live` and `done` untouched, pool kept; as intended it sleeps, as written it faults on the clock |
| TaskWorker.StepThrowLeavesLive | distributed/task_worker/worker.js:102-111 | a `run` that throws or rejects ends the pass in `erred`, in the code and as intended, with the label popped from `todo` and left in `live`; the pool is kept |
| TaskWorker.StepIntendedOutcomes | distributed/task_worker/worker.js:49-145 | as intended, a pass sleeps on a closed gate or unmet dependencies and exits on an empty queue; it agrees with the code on every pass that neither yields a marker nor runs a task whose `run` resolves with "sleep" or "exit" |
| TaskWorker.StepFinishes | distributed/task_worker/worker.js:102-135 | as intended, a started task's label goes to the end of `done` and leaves `live`, and for a lone worker the pool is kept; the code does the same whenever `run` resolves with something other than "sleep" or "exit" |
| TaskLoad.LastIndexOf | distributed/jobs/utils/load.js:18 | `lastIndexOf`: the last position of the separator, or -1 when it does not occur |
| TaskLoad.IndexOfFrom | distributed/jobs/utils/load.js:19 | `indexOf`: the first position where the pattern occurs, or -1 when none does |
| TaskLoad.ReplaceFirst | distributed/jobs/utils/load.js:19 | string `replace` with a string pattern; `LabelReplacesFirstOccurrenceOnly` states that only the first occurrence goes |
| TaskLoad.LabelFromTaskPath | distributed/jobs/utils/load.js:17-20 | the label never contains the separator; with no separator, it is the whole path with the first ".js" removed; after a trailing separator it is "" |
| TaskLoad.LabelOfTaskFile | distributed/jobs/utils/load.js:17-20 | `<dir><sep><name>.js`, with no other ".js" in `name`, yields `name` |
| TaskLoad.NoEarlierOccurrence | distributed/jobs/utils/load.js:19 | in `name + ".js"` the first ".js" is the suffix unless `name` holds one |
| TaskLoad.NoDotNoOccurrence | distributed/jobs/utils/load.js:19 | a name without a dot holds no ".js" |
| TaskLoad.LabelOfWorkerTask | distributed/jobs/tasks/task2.js:3 | `<dir>/task11.js` yields `task11`, the label `task2` names as its dependency |
| TaskLoad.LabelReplacesFirstOccurrenceOnly | distributed/jobs/utils/load.js:19 | only the first ".js" goes, wherever it is: `a.js.js` gives `a.js` and `x.jsx` gives `xx` |
| TimeFormat.Components | distributed/jobs/worker.js:190-193 | whole minutes, the seconds left over and the milliseconds left over recompose the duration, each below its bound |
| TimeFormat.GetTime | distributed/jobs/worker.js:189-199 | `getTime`; `GetTimeEmptyIffZero`, `ParseGetTime` and `GetTimeInjective` state its output |
| TimeFormat.GetTimeEmptyIffZero | distributed/jobs/worker.js:195-198 | zero components are omitted, so the text is empty iff the duration is 0 |
| TimeFormat.ParseGetTime | distributed/jobs/worker.js:189-199 | reading the output back gives the duration |
| TimeFormat.GetTimeInjective | distributed/task_worker/worker.js:203-213 | two different durations never print the same (both workers' formatters are identical) |
| TimeFormat.GetTimeExample | distributed/jobs/worker.js:189-199 | 61005 ms prints `1 min 1 sec 5 ms` and 2000 ms prints `2 sec ` |

## Left out

- Forking and the child-process listeners of `fill` (task_scheduler/scheduler.js:151-157) are foreign calls. Dispatch is an append to `live`; events are the inputs of `Handle`.
- The `hrtime` clock fields, and the `end` and `process: null` that `moveToDone` writes into the record, are not modelled. The task record keeps label, path, deps and the waiting flag; `args` and `opts` are not modelled either.
- `numCore` comes from `os.cpus()` in the source; here it is a constructor parameter.
- `error()` is modelled as the corrected step: a set of labels stands for the `disconnect()` calls. The throw of the code as written is modelled separately (see Findings). JavaScript exceptions are not modelled otherwise.
- The code has no deadlock detection, no capacity floor and no missing-dependency check. None is added: `StepStuck` shows that a blocked run stays pending.
- Labels are JavaScript values in the source; the model takes "" for every falsy label. A lookup `tasks[label]` of a prototype key such as `constructor` is not modelled.
- The Redis client wrappers (distributed/jobs/utils/redis.js, distributed/task_worker/worker.js:236-323) are not modelled. The store is a value, and each command is its effect on one list. Connection errors, and the `set` helper that issues GET, are left out.
- In the task worker the RPUSH calls to `todo` (distributed/task_worker/worker.js:93) and to `live` (line 103) are not awaited; the RPUSH to `done` (line 134) is. The model applies them in program order, which is what a single Redis connection does.
- Task bodies (`tasks/*.js`), `debug`, `exit`, `erred`, log.js and general.js are not modelled. What a task's `run` produced is an input.
- Filesystem discovery (`getTaskDirList`, `nullIfNotFile`, `getTaskPaths`) and the dynamic `require` are I/O. `Load` takes the listing and the loaded modules as inputs. A failing `require` or `readdir` (the `catch` in `load`) is not modelled.
- The fillers, distributed/jobs/filler.js and distributed/task_filler/filler.js, are sequences of store writes. They are not part of this model.
- Decimal.NatToString: prints every natural in plain digits. JavaScript prints numbers of 1e21 and above in exponent form; no task index or duration here comes near that.
- Floating point is not modelled: fractional milliseconds from `hrtime` and the `Math.random` jitter of `sleep`.
- TimeFormat.GetTime: takes natural milliseconds only, as its doc comment states. The fractional output of `ms % 1000` on a fractional duration is not modelled.
- Scheduler.TaskScheduler.Error: follows the corrected `error` case, so that the model of the class covers what the handler evidently intends. The throw of the code as written is stated by `Scheduler.ErrorAsWrittenAgainstStep`.
- Several workers sharing one store, and their read-then-act races, are not modelled. Each pass is one worker's step with the store held still.
- The first stage of the task worker reads `ready`, pops and reads `done` concurrently. The model reads them together on one store, as the `Promise.all` does.

## Findings

| source | as written | input that shows it | evidently intended | confidence | as-written member | corrected member |
|---|---|---|---|---|---|---|
| task_scheduler/scheduler.js:262 | `error()` calls `task.child.disconnect()`. `fill` stores the child under `process` (line 166), so `task.child` is undefined and the call throws a TypeError before the `reject` at line 75 | an `error` event with one task live: `live = [task_0]` | disconnect every live child, then reject with `Error with label <label>: <res>` | not executed | Scheduler.ErrorAsWrittenThrows | Scheduler.StepErrorRejects |
| distributed/task_worker/worker.js:60-98 | the sleep and exit markers are built as `[null, 'sleep', null]`, so stage 2 (line 118) finds the word at index 1 but reads `res` from index 2. It then calls `process.hrtime(null)`, which throws a TypeError | `ready = "true"` with `todo` empty: the pass faults instead of exiting | a marker ends the pass in `sleep()` or `exit()`. The corrected member also moves a task whose `run` resolves with "sleep" or "exit" to `done`; that half is a chosen correction, since the source does not make it evident (as written such a task stays in `live`, `StartedMarkerWordStrands`) | not executed | TaskWorker.EmptyQueueFaults | TaskWorker.StepIntendedOutcomes |
