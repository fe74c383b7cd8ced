/** One pass of `run` in distributed/task_worker/worker.js. The pass is a
    promise chain: stage 1 reads `ready`, pops `todo` and reads `done` all
    at once, then decides; stage 2 looks at the value stage 1 resolved
    with and moves the task to `done`; stage 3 sleeps or exits. */
module TaskWorker {
  import opened Wrappers
  import opened RedisStore
  import JobsWorker

  /** What stage 1 resolves with: a marker tuple `[null, word, null]`, or
      `[clock, startClock, value, label]` after running a task; or the
      error that rejects the chain. */
  datatype Stage1 = Marker(word: string) | Started(value: Option<string>, taskLabel: string) | Failed(message: string)

  /** How the pass ends: `sleep()`, `exit()`, `erred(e)`, or the TypeError
      `process.hrtime(null)` raises, which `erred` also reports. */
  datatype Outcome = Sleep | Exit | Erred(message: string) | ClockFault

  /** `depsOk` of this worker: a module must have a `deps` field, and every
      dependency must be in `done`. A module with no `deps` field is never
      ready; an empty array is. */
  function DepsOk(task: TaskModule, done: seq<string>): (ok: bool)
    ensures ok <==> task.deps.Some? && forall d :: d in task.deps.value ==> d in done
  {
    task.deps.Some? && Every(task.deps.value, done)
  }

  /** Stage 1 (the first `.then`). The pop happens together with the ready
      read, so a closed gate drops the popped label. */
  function StageOne(store: Store, tasks: map<string, TaskModule>, run: RunResult): (Store, Stage1) {
    var (popped, todo) := LPop(store.todo);
    var s1 := store.(todo := todo);
    if !Truthy(store.ready) then (s1, Marker("sleep"))
    else if !Truthy(popped) then (s1, Marker("exit"))
    else
      var taskLabel := popped.value;
      if taskLabel !in tasks then (s1, Failed(JobsWorker.MissingTaskMessage(taskLabel)))
      else if !DepsOk(tasks[taskLabel], s1.done) then (s1.(todo := s1.todo + [taskLabel]), Marker("sleep"))
      else
        var s2 := s1.(live := s1.live + [taskLabel]);
        match run
        case Threw(message) => (s2, Failed(message))
        case Returned(value) => (s2, Started(value, taskLabel))
  }

  /** The slot stage 2 destructures as `res`: index 2 of the tuple, null in
      a marker tuple. */
  function ResSlot(v: Stage1): Option<string> {
    match v
    case Marker(_) => None
    case Started(value, _) => value
    case Failed(_) => None
  }

  /** Stages 2 and 3 as written: fall through on a `sleep`/`exit` res;
      otherwise `process.hrtime(clock)`, which throws on a marker's null
      clock; otherwise remove the label from `live`, append it to `done`
      and sleep. */
  function StageTwo(store: Store, v: Stage1): (Store, Outcome) {
    if v.Failed? then (store, Erred(v.message))
    else
      var res := ResSlot(v);
      if res == Some("sleep") || res == Some("exit") then (store, if res == Some("exit") then Exit else Sleep)
      else if v.Marker? then (store, ClockFault)
      else (store.(live := RemoveAll(store.live, v.taskLabel), done := store.done + [v.taskLabel]), Sleep)
  }

  /** One pass of `run`, as written. */
  function Step(store: Store, tasks: map<string, TaskModule>, run: RunResult): (Store, Outcome) {
    var (s1, v) := StageOne(store, tasks, run);
    StageTwo(s1, v)
  }

  /** Stage 2 as evidently intended: a marker is recognised by its word,
      at index 1; a started task is always moved to `done`. */
  function StageTwoIntended(store: Store, v: Stage1): (Store, Outcome) {
    match v
    case Marker(word) => (store, if word == "exit" then Exit else Sleep)
    case Started(_, taskLabel) => (store.(live := RemoveAll(store.live, taskLabel), done := store.done + [taskLabel]), Sleep)
    case Failed(message) => (store, Erred(message))
  }

  function StepIntended(store: Store, tasks: map<string, TaskModule>, run: RunResult): (Store, Outcome) {
    var (s1, v) := StageOne(store, tasks, run);
    StageTwoIntended(s1, v)
  }

  /** The corrected stage 2 departs from the code exactly on a marker and
      on a started task whose `run` resolved with the word "sleep" or
      "exit", which the code mistakes for a marker. */
  lemma StageTwoDiffers(store: Store, v: Stage1)
    ensures StageTwoIntended(store, v) != StageTwo(store, v) <==>
      v.Marker? || (v.Started? && (v.value == Some("sleep") || v.value == Some("exit")))
  {
    if v.Started? && (v.value == Some("sleep") || v.value == Some("exit")) {
      assert |StageTwoIntended(store, v).0.done| == |store.done| + 1;
    }
  }

  /** As written, the sleep and exit markers never reach stage 3: every
      pass that should sleep on a closed gate or a requeue, or exit on an
      empty queue, ends in the clock fault instead. */
  lemma StepMarkersFault(store: Store, tasks: map<string, TaskModule>, run: RunResult)
    ensures StageOne(store, tasks, run).1.Marker? ==> Step(store, tasks, run).1 == ClockFault
    ensures !Truthy(store.ready) ==> Step(store, tasks, run).1 == ClockFault
    ensures Truthy(store.ready) && store.todo == [] ==> Step(store, tasks, run).1 == ClockFault
  {
  }

  /** A concrete pass: an empty queue with the gate open. */
  lemma EmptyQueueFaults()
    ensures Step(Store(Some("true"), [], [], []), map[], Returned(None)).1 == ClockFault
    ensures StepIntended(Store(Some("true"), [], [], []), map[], Returned(None)).1 == Exit
  {
    assert Truthy(Some("true")) by {
      assert "true"[0] == 't';
    }
  }

  /** The corrected pass sleeps on a closed gate and on unmet dependencies
      and exits on an empty queue. It agrees with the code on every pass
      that neither resolves stage 1 with a marker nor runs a task whose
      `run` resolves with "sleep" or "exit"; `StartedMarkerWordStrands`
      covers that second kind of pass. */
  lemma StepIntendedOutcomes(store: Store, tasks: map<string, TaskModule>, run: RunResult)
    ensures !Truthy(store.ready) ==> StepIntended(store, tasks, run).1 == Sleep
    ensures Truthy(store.ready) && store.todo == [] ==> StepIntended(store, tasks, run).1 == Exit
    ensures (Truthy(store.ready) && store.todo != [] && store.todo[0] != "" && store.todo[0] in tasks &&
             !DepsOk(tasks[store.todo[0]], store.done)) ==> StepIntended(store, tasks, run).1 == Sleep
    ensures !StageOne(store, tasks, run).1.Marker? && ResSlot(StageOne(store, tasks, run).1) !in {Some("sleep"), Some("exit")} ==>
      StepIntended(store, tasks, run) == Step(store, tasks, run)
  {
  }

  /** As written, a task whose `run` resolves with "sleep" or "exit" is
      taken for a marker: its label stays in `live`, never reaches `done`,
      and the pass sleeps or exits. The corrected pass moves it to `done`. */
  lemma StartedMarkerWordStrands(store: Store, tasks: map<string, TaskModule>, word: string)
    requires word == "sleep" || word == "exit"
    requires Truthy(store.ready) && store.todo != [] && store.todo[0] != ""
    requires store.todo[0] in tasks && DepsOk(tasks[store.todo[0]], store.done)
    ensures var l := store.todo[0];
      Step(store, tasks, Returned(Some(word))) ==
        (store.(todo := store.todo[1..], live := store.live + [l]), if word == "exit" then Exit else Sleep)
    ensures var l := store.todo[0];
      StepIntended(store, tasks, Returned(Some(word))) ==
        (store.(todo := store.todo[1..], live := RemoveAll(store.live + [l], l), done := store.done + [l]), Sleep)
  {
    var l := store.todo[0];
    var s2 := store.(todo := store.todo[1..], live := store.live + [l]);
    assert StageOne(store, tasks, Returned(Some(word))) == (s2, Started(Some(word), l));
  }

  /** A popped label without a module rejects the chain after the pop: the
      label has left `todo` and reached neither `live` nor `done`. */
  lemma StepUnknownLabelLost(store: Store, tasks: map<string, TaskModule>, run: RunResult)
    requires Truthy(store.ready) && store.todo != [] && store.todo[0] != ""
    requires store.todo[0] !in tasks
    ensures var s := store.(todo := store.todo[1..]);
      Step(store, tasks, run) == (s, Erred("Unable to find reference to task " + store.todo[0])) &&
      StepIntended(store, tasks, run) == Step(store, tasks, run) &&
      Pool(s) + multiset{store.todo[0]} == Pool(store)
  {
    assert store.todo == [store.todo[0]] + store.todo[1..];
  }

  /** An empty queue, or a popped empty label, resolves stage 1 with the
      exit marker: only the pop changes the store. The corrected pass
      then exits; the code faults on the clock. */
  lemma StepFalsyPop(store: Store, tasks: map<string, TaskModule>, run: RunResult)
    requires Truthy(store.ready) && (store.todo == [] || store.todo[0] == "")
    ensures var s := store.(todo := if store.todo == [] then [] else store.todo[1..]);
      StepIntended(store, tasks, run) == (s, Exit) && Step(store, tasks, run) == (s, ClockFault)
  {
  }

  /** A module whose `deps` are present but not all in `done` is pushed
      back to the tail of `todo`; `live` and `done` are untouched. The
      corrected pass then sleeps; the code faults on the clock. */
  lemma StepRequeues(store: Store, tasks: map<string, TaskModule>, run: RunResult)
    requires Truthy(store.ready) && store.todo != [] && store.todo[0] != ""
    requires store.todo[0] in tasks && !DepsOk(tasks[store.todo[0]], store.done)
    ensures var s := store.(todo := store.todo[1..] + [store.todo[0]]);
      StepIntended(store, tasks, run) == (s, Sleep) && Step(store, tasks, run) == (s, ClockFault) &&
      Pool(s) == Pool(store)
  {
    assert store.todo == [store.todo[0]] + store.todo[1..];
  }

  /** A task whose `run` throws or rejects ends the pass in `erred`: the
      label has left `todo` and stays in `live`, in the code and as
      intended. */
  lemma StepThrowLeavesLive(store: Store, tasks: map<string, TaskModule>, message: string)
    requires Truthy(store.ready) && store.todo != [] && store.todo[0] != ""
    requires store.todo[0] in tasks && DepsOk(tasks[store.todo[0]], store.done)
    ensures Step(store, tasks, Threw(message)) ==
      (store.(todo := store.todo[1..], live := store.live + [store.todo[0]]), Erred(message))
    ensures StepIntended(store, tasks, Threw(message)) == Step(store, tasks, Threw(message))
    ensures var s := Step(store, tasks, Threw(message)).0; Pool(s) == Pool(store)
  {
    assert store.todo == [store.todo[0]] + store.todo[1..];
  }

  /** The pop comes before the gate: with the gate closed, the head of
      `todo` is dropped and nothing else changes. */
  lemma StepClosedGateDropsHead(store: Store, tasks: map<string, TaskModule>, run: RunResult)
    requires !Truthy(store.ready) && store.todo != []
    ensures var s := StepIntended(store, tasks, run).0;
      s == store.(todo := store.todo[1..]) && Pool(s) + multiset{store.todo[0]} == Pool(store)
    ensures Step(store, tasks, run).0 == StepIntended(store, tasks, run).0
  {
    assert store.todo == [store.todo[0]] + store.todo[1..];
  }

  /** The jobs worker leaves the store untouched on a closed gate, where
      this worker loses the head of `todo`. */
  lemma GateOrderDiffers(store: Store, tasks: map<string, TaskModule>, run: RunResult)
    requires !Truthy(store.ready) && store.todo != []
    ensures JobsWorker.Step(store, tasks, run).0 == store
    ensures |Step(store, tasks, run).0.todo| == |store.todo| - 1
  {
  }

  /** The two `depsOk`s differ exactly on a module without `deps`. */
  lemma DepsOkDiffer(task: TaskModule, done: seq<string>)
    ensures DepsOk(task, done) != JobsWorker.DepsOk(task, done) <==> task.deps.None?
  {
  }

  /** The worker's own task modules (tasks/task1.js and the others) have
      no `deps` field, so a popped label is always requeued: no pass ever
      moves anything to `live` or `done`. */
  lemma NoDepsNeverRuns(store: Store, tasks: map<string, TaskModule>, run: RunResult)
    requires forall l :: l in tasks ==> tasks[l].deps.None?
    ensures var s := StepIntended(store, tasks, run).0;
      s.live == store.live && s.done == store.done &&
      (Truthy(store.ready) && store.todo != [] && store.todo[0] != "" && store.todo[0] in tasks ==>
        s.todo == store.todo[1..] + [store.todo[0]] && Pool(s) == Pool(store))
    ensures Step(store, tasks, run).0 == StepIntended(store, tasks, run).0
  {
    var (s1, v) := StageOne(store, tasks, run);
    NoDepsStageOne(store, tasks, run);
    assert Step(store, tasks, run).0 == s1;
    assert StepIntended(store, tasks, run).0 == s1;
  }

  /** Stage 1 with no module declaring `deps`: the pass never starts a
      task, and only `todo` changes. */
  lemma NoDepsStageOne(store: Store, tasks: map<string, TaskModule>, run: RunResult)
    requires forall l :: l in tasks ==> tasks[l].deps.None?
    ensures var (s1, v) := StageOne(store, tasks, run);
      !v.Started? && s1.live == store.live && s1.done == store.done && s1.ready == store.ready &&
      (Truthy(store.ready) && store.todo != [] && store.todo[0] != "" && store.todo[0] in tasks ==>
        s1.todo == store.todo[1..] + [store.todo[0]] && Pool(s1) == Pool(store))
  {
    if store.todo != [] {
      assert store.todo == [store.todo[0]] + store.todo[1..];
    }
  }

  /** A task that runs: its label is appended to `live` and then taken out
      of `live` entirely (LREM with count 0) and appended once to `done`.
      For a lone worker no label is lost or gained. The code does the same
      unless `run` resolves with "sleep" or "exit". */
  lemma StepFinishes(store: Store, tasks: map<string, TaskModule>, value: Option<string>)
    requires Truthy(store.ready) && store.todo != [] && store.todo[0] != ""
    requires store.todo[0] in tasks && DepsOk(tasks[store.todo[0]], store.done)
    ensures var (s, outcome) := StepIntended(store, tasks, Returned(value));
      var l := store.todo[0];
      outcome == Sleep && s.todo == store.todo[1..] && s.done == store.done + [l] && l !in s.live &&
      (l !in store.live ==> s.live == store.live && Pool(s) == Pool(store))
    ensures value != Some("sleep") && value != Some("exit") ==>
      Step(store, tasks, Returned(value)) == StepIntended(store, tasks, Returned(value))
  {
    var l := store.todo[0];
    var s2 := store.(todo := store.todo[1..], live := store.live + [l]);
    assert StageOne(store, tasks, Returned(value)) == (s2, Started(value, l));
    assert StepIntended(store, tasks, Returned(value)) ==
      (s2.(live := RemoveAll(s2.live, l), done := store.done + [l]), Sleep);
    JobsWorker.LoneWorkerFinish(store, l);
  }
}
