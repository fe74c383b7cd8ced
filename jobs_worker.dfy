/** One pass of `run` in distributed/jobs/worker.js, as a transition of the
    Redis store, and the task map `load` builds from the task files. */
module JobsWorker {
  import opened Wrappers
  import opened RedisStore
  import TaskLoad

  /** How a pass ends: `sleep()` after a closed ready gate, `exit()` on an
      empty queue, `erred(e)`, `sleep()` after a requeue, or `sleep()` after
      moving the task to `done`. */
  datatype Pass = NotReady | Drained | Failed(message: string) | Requeued | Finished

  /** `depsOk`: a module without `deps` may run; otherwise every dependency
      must be in the `done` list. */
  function DepsOk(task: TaskModule, done: seq<string>): (ok: bool)
    ensures ok <==> task.deps.None? || forall d :: d in task.deps.value ==> d in done
  {
    if task.deps.None? then true else Every(task.deps.value, done)
  }

  function MissingTaskMessage(taskLabel: string): string {
    "Unable to find reference to task " + taskLabel
  }

  /** One pass of `run`: read `ready`; pop the head of `todo`; look the
      label up; read `done`; then requeue, or push to `live`, run, and move
      the label from `live` to `done`. `run` is what the task's `run`
      produced, when it is called. */
  function Step(store: Store, tasks: map<string, TaskModule>, run: RunResult): (Store, Pass) {
    if !Truthy(store.ready) then (store, NotReady)
    else
      var (popped, todo) := LPop(store.todo);
      var s1 := store.(todo := todo);
      if !Truthy(popped) then (s1, Drained)
      else
        var taskLabel := popped.value;
        if taskLabel !in tasks then (s1, Failed(MissingTaskMessage(taskLabel)))
        else if !DepsOk(tasks[taskLabel], s1.done) then (s1.(todo := s1.todo + [taskLabel]), Requeued)
        else
          var s2 := s1.(live := s1.live + [taskLabel]);
          match run
          case Threw(message) => (s2, Failed(message))
          case Returned(_) => (s2.(live := RemoveAll(s2.live, taskLabel), done := s2.done + [taskLabel]), Finished)
  }

  /** `ready` is only ever read, and `done` only grows, by at most one
      label at its end. */
  lemma StepMonotone(store: Store, tasks: map<string, TaskModule>, run: RunResult)
    ensures var (s, _) := Step(store, tasks, run);
      s.ready == store.ready &&
      |store.done| <= |s.done| <= |store.done| + 1 && s.done[..|store.done|] == store.done
  {
  }

  /** A closed ready gate leaves the store untouched: `todo` is read only
      after the gate. An empty queue exits without a change either; a
      popped empty label exits too, after the pop. */
  lemma StepGates(store: Store, tasks: map<string, TaskModule>, run: RunResult)
    ensures !Truthy(store.ready) ==> Step(store, tasks, run) == (store, NotReady)
    ensures Truthy(store.ready) && store.todo == [] ==> Step(store, tasks, run) == (store, Drained)
    ensures Truthy(store.ready) && store.todo != [] && store.todo[0] == "" ==>
      Step(store, tasks, run) == (store.(todo := store.todo[1..]), Drained)
    ensures Step(store, tasks, run).1 == NotReady <==> !Truthy(store.ready)
  {
  }

  /** A popped label with no module is lost: it has left `todo` and is in
      neither `live` nor `done`. */
  lemma StepUnknownLabelLost(store: Store, tasks: map<string, TaskModule>, run: RunResult)
    requires Truthy(store.ready) && store.todo != [] && store.todo[0] != ""
    requires store.todo[0] !in tasks
    ensures var (s, pass) := Step(store, tasks, run);
      pass == Failed("Unable to find reference to task " + store.todo[0]) &&
      s == store.(todo := store.todo[1..]) &&
      Pool(s) + multiset{store.todo[0]} == Pool(store)
  {
    assert store.todo == [store.todo[0]] + store.todo[1..];
  }

  /** Unmet dependencies move the label from the head of `todo` to its
      tail; `live` and `done` are untouched. */
  lemma StepRequeues(store: Store, tasks: map<string, TaskModule>, run: RunResult)
    requires Truthy(store.ready) && store.todo != [] && store.todo[0] != ""
    requires store.todo[0] in tasks && !DepsOk(tasks[store.todo[0]], store.done)
    ensures var (s, pass) := Step(store, tasks, run);
      pass == Requeued && s == store.(todo := store.todo[1..] + [store.todo[0]]) &&
      Pool(s) == Pool(store)
  {
    assert store.todo == [store.todo[0]] + store.todo[1..];
  }

  /** A finished pass: the label is in `done` as its new last entry and in
      no position of `live`; every other live label is kept. For a lone
      worker (the label was not already live) no label is lost or gained. */
  lemma StepFinishes(store: Store, tasks: map<string, TaskModule>, value: Option<string>)
    requires Truthy(store.ready) && store.todo != [] && store.todo[0] != ""
    requires store.todo[0] in tasks && DepsOk(tasks[store.todo[0]], store.done)
    ensures var (s, pass) := Step(store, tasks, Returned(value));
      var l := store.todo[0];
      pass == Finished && s.todo == store.todo[1..] && s.done == store.done + [l] &&
      l !in s.live && (forall y :: y != l ==> multiset(s.live)[y] == multiset(store.live)[y]) &&
      (l !in store.live ==> s.live == store.live && Pool(s) == Pool(store))
  {
    var l := store.todo[0];
    var s2 := store.(todo := store.todo[1..], live := store.live + [l]);
    assert LPop(store.todo) == (Some(l), store.todo[1..]);
    assert Step(store, tasks, Returned(value)) ==
      (s2.(live := RemoveAll(s2.live, l), done := store.done + [l]), Finished);
    LoneWorkerFinish(store, l);
  }

  /** The store after a finished pass, for a lone worker: the label went
      from the head of `todo` to the end of `done`. */
  lemma LoneWorkerFinish(store: Store, l: string)
    requires store.todo != [] && store.todo[0] == l
    ensures var s := store.(todo := store.todo[1..], live := RemoveAll(store.live + [l], l), done := store.done + [l]);
      l !in s.live && (forall y :: y != l ==> multiset(s.live)[y] == multiset(store.live)[y]) &&
      (l !in store.live ==> s.live == store.live && Pool(s) == Pool(store))
  {
    RemoveAllAppended(store.live, l);
    if l !in store.live {
      RemoveAllAbsent(store.live, l);
      assert store.todo == [l] + store.todo[1..];
    }
  }

  /** A task that throws ends the pass in `erred`, which ends the process,
      with its label still in `live`: the label has left `todo` and never
      reaches `done`. */
  lemma StepThrowLeavesLive(store: Store, tasks: map<string, TaskModule>, message: string)
    requires Truthy(store.ready) && store.todo != [] && store.todo[0] != ""
    requires store.todo[0] in tasks && DepsOk(tasks[store.todo[0]], store.done)
    ensures var (s, pass) := Step(store, tasks, Threw(message));
      pass == Failed(message) && s == store.(todo := store.todo[1..], live := store.live + [store.todo[0]]) &&
      Pool(s) == Pool(store)
  {
    assert store.todo == [store.todo[0]] + store.todo[1..];
  }

  // ---------------------------------------------------------------------
  // load

  /** How `load` ends: exit on an empty directory listing, exit when no
      entry is a file, or the task map, after which `run` starts. */
  datatype Loaded = NothingFound | NoTaskFiles | Loaded(tasks: map<string, TaskModule>)

  /** The key a module is stored under: its own label, else the one derived
      from its path. */
  function KeyOf(taskPath: string, task: TaskModule, sep: char): string {
    if task.taskLabel != "" then task.taskLabel else TaskLoad.LabelFromTaskPath(taskPath, sep)
  }

  /** The module as stored: `task.label = …` writes the derived label into
      the module itself. */
  function Labelled(taskPath: string, task: TaskModule, sep: char): TaskModule {
    task.(taskLabel := KeyOf(taskPath, task, sep))
  }

  /** Each file's key and stored module, in file order. */
  function Entries(files: seq<(string, TaskModule)>, sep: char): (r: seq<(string, TaskModule)>)
    ensures |r| == |files|
    ensures forall i :: 0 <= i < |files| ==> r[i].1.taskLabel == r[i].0
  {
    seq(|files|, i requires 0 <= i < |files| => (KeyOf(files[i].0, files[i].1, sep), Labelled(files[i].0, files[i].1, sep)))
  }

  /** The map a run of `tasks[key] = module` assignments leaves, in order. */
  function MapOf(entries: seq<(string, TaskModule)>): map<string, TaskModule> {
    if entries == [] then map[]
    else
      var n := |entries| - 1;
      MapOf(entries[..n])[entries[n].0 := entries[n].1]
  }

  /** The map the `forEach` of `load` leaves after the given files. */
  function TaskMap(files: seq<(string, TaskModule)>, sep: char): map<string, TaskModule> {
    MapOf(Entries(files, sep))
  }

  lemma MapOfSnoc(entries: seq<(string, TaskModule)>, i: nat)
    requires i < |entries|
    ensures MapOf(entries[..i + 1]) == MapOf(entries[..i])[entries[i].0 := entries[i].1]
  {
    assert entries[..i + 1][..i] == entries[..i];
  }

  /** A key is in the map iff some entry has it. */
  lemma {:induction false} MapOfDomain(entries: seq<(string, TaskModule)>, key: string)
    ensures key in MapOf(entries) <==> exists i :: 0 <= i < |entries| && entries[i].0 == key
  {
    if entries != [] {
      var n := |entries| - 1;
      var init := entries[..n];
      MapOfDomain(init, key);
      if key in MapOf(init) {
        var i :| 0 <= i < n && init[i].0 == key;
        assert init[i] == entries[i];
      }
      if exists i :: 0 <= i < |entries| && entries[i].0 == key {
        var i :| 0 <= i < |entries| && entries[i].0 == key;
        if i < n {
          assert init[i] == entries[i];
        }
      }
    }
  }

  /** The value under a key comes from the LAST entry with that key. */
  lemma {:induction false} MapOfLastWins(entries: seq<(string, TaskModule)>, key: string)
    requires key in MapOf(entries)
    ensures exists i :: (0 <= i < |entries| && entries[i].0 == key && MapOf(entries)[key] == entries[i].1 &&
      forall j :: i < j < |entries| ==> entries[j].0 != key)
  {
    var n := |entries| - 1;
    var init := entries[..n];
    if entries[n].0 != key {
      MapOfLastWins(init, key);
      var i :| 0 <= i < n && init[i].0 == key && MapOf(init)[key] == init[i].1 &&
        forall j :: i < j < n ==> init[j].0 != key;
      assert init[i] == entries[i];
      assert forall j :: i < j < n ==> init[j] == entries[j];
    }
  }

  /** `load`'s map: a key is present iff some file yields it; its module
      comes from the LAST file yielding it (a later file with the same label
      overwrites an earlier one) and carries that key as its label. */
  lemma TaskMapEntries(files: seq<(string, TaskModule)>, sep: char, key: string)
    ensures key in TaskMap(files, sep) <==> exists i :: 0 <= i < |files| && KeyOf(files[i].0, files[i].1, sep) == key
    ensures key in TaskMap(files, sep) ==> exists i :: (0 <= i < |files| &&
      KeyOf(files[i].0, files[i].1, sep) == key &&
      TaskMap(files, sep)[key] == Labelled(files[i].0, files[i].1, sep) &&
      forall j :: i < j < |files| ==> KeyOf(files[j].0, files[j].1, sep) != key)
    ensures key in TaskMap(files, sep) ==> TaskMap(files, sep)[key].taskLabel == key
  {
    var entries := Entries(files, sep);
    assert forall i :: 0 <= i < |files| ==> entries[i] == (KeyOf(files[i].0, files[i].1, sep), Labelled(files[i].0, files[i].1, sep));
    MapOfDomain(entries, key);
    if key in TaskMap(files, sep) {
      MapOfLastWins(entries, key);
      var i :| 0 <= i < |entries| && entries[i].0 == key && MapOf(entries)[key] == entries[i].1 &&
        forall j :: i < j < |entries| ==> entries[j].0 != key;
      assert KeyOf(files[i].0, files[i].1, sep) == key;
    }
  }

  /** The `forEach` of `load`: store each module under its label, or
      under the label derived from its path after writing that label into
      the module. */
  method BuildTaskMap(files: seq<(string, TaskModule)>, sep: char) returns (tasks: map<string, TaskModule>)
    ensures tasks == TaskMap(files, sep)
  {
    tasks := map[];
    var i := 0;
    ghost var entries := Entries(files, sep);
    while i < |files|
      invariant 0 <= i <= |files|
      invariant tasks == MapOf(entries[..i])
    {
      var (taskPath, task) := files[i];
      var taskLabel := task.taskLabel;
      if taskLabel == "" {
        taskLabel := TaskLoad.LabelFromTaskPath(taskPath, sep);
      }
      assert taskLabel == KeyOf(taskPath, task, sep);
      MapOfSnoc(entries, i);
      tasks := tasks[taskLabel := task.(taskLabel := taskLabel)];
      i := i + 1;
    }
    assert entries[..i] == entries;
  }

  /** `load` from the directory listing and the task files it found, each
      with the module `require` returned for it. */
  method Load(dirList: seq<string>, files: seq<(string, TaskModule)>, sep: char) returns (r: Loaded)
    ensures |dirList| == 0 ==> r == NothingFound
    ensures |dirList| > 0 && |files| == 0 ==> r == NoTaskFiles
    ensures |dirList| > 0 && |files| > 0 ==>
      (r.Loaded? &&
       (forall key :: key in r.tasks <==> exists i :: 0 <= i < |files| && KeyOf(files[i].0, files[i].1, sep) == key) &&
       (forall key :: key in r.tasks ==> r.tasks[key].taskLabel == key))
    ensures r.Loaded? ==> r.tasks == TaskMap(files, sep)
  {
    if |dirList| == 0 {
      return NothingFound;
    }
    if |files| == 0 {
      return NoTaskFiles;
    }
    var tasks := BuildTaskMap(files, sep);
    forall key
      ensures key in tasks <==> exists i :: 0 <= i < |files| && KeyOf(files[i].0, files[i].1, sep) == key
      ensures key in tasks ==> tasks[key].taskLabel == key
    {
      TaskMapEntries(files, sep, key);
    }
    return Loaded(tasks);
  }
}
