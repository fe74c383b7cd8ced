/** The in-process scheduler of task_scheduler/scheduler.js: the state the
    promise executor of `schedule` keeps (`todo`, `live`, `done`), the event
    handler the children report to, and the `fill` loop, as a class whose
    methods update that state in place. `Step` is the pure specification of
    one handler call; the class is proved to follow it, and the lemmas below
    prove what the scheduler keeps true over any sequence of events. */
module Scheduler {
  import opened Wrappers
  import opened SchedulerState

  /** The `action` argument of the handler; `OtherEvent` stands for any
      other string, which the handler ignores. */
  datatype Action = ExitEvent | ErrorEvent | CloseEvent | DisconnectEvent | OtherEvent

  /** The whole run: the three lists, the state of the promise, and the
      labels of the live children that have been asked to disconnect. */
  datatype Run = Run(todo: seq<Task>, live: seq<Task>, done: seq<Task>, outcome: Settlement, disconnected: set<string>)

  /** A promise settles at most once: a later `resolve` or `reject` is
      ignored. */
  function Settle(outcome: Settlement, next: Settlement): Settlement {
    if outcome.Pending? then next else outcome
  }

  /** Settling is absorbing: once settled, a later `resolve` or `reject`
      changes nothing, and the result is pending only while both are. */
  lemma SettleOnce(outcome: Settlement, first: Settlement, later: Settlement)
    ensures !first.Pending? ==> Settle(Settle(outcome, first), later) == Settle(outcome, first)
    ensures Settle(outcome, first).Pending? <==> outcome.Pending? && first.Pending?
    ensures !outcome.Pending? ==> Settle(outcome, first) == outcome
  {
  }

  /** The labels of the tasks in `live`. */
  function LiveLabels(live: seq<Task>): set<string> {
    set i | 0 <= i < |live| :: live[i].taskLabel
  }

  /** `schedule(tasks)` up to its first return: an empty list resolves at
      once with `undefined`; otherwise the prepared list is filled. */
  function Schedule(tasks: seq<Task>, numCore: int): Run {
    if |tasks| == 0 then Run([], [], [], Resolved(None), {})
    else
      var (todo, live) := FillSpec(Prepare(tasks), [], [], numCore);
      Run(todo, live, [], Pending, {})
  }

  /** What the handler does after the `exit`, `close` and `disconnect`
      cases: resolve with `done` when both `todo` and `live` are empty, wait
      when only `todo` is empty, and `fill` otherwise. */
  function AfterEvent(r: Run, numCore: int): Run {
    if |r.todo| == 0 && |r.live| == 0 then r.(outcome := Settle(r.outcome, Resolved(Some(r.done))))
    else if |r.todo| == 0 then r
    else
      var (todo, live) := FillSpec(r.todo, r.live, r.done, numCore);
      r.(todo := todo, live := live)
  }

  /** One call of the handler. `exit` moves the task to `done`; `error`
      asks every live child to disconnect and rejects, skipping the refill;
      `close` and `disconnect` change nothing before the refill; any other
      action is ignored. */
  function Step(r: Run, taskLabel: string, action: Action, cause: string, numCore: int): Run {
    match action
    case ExitEvent =>
      var (live, done) := MoveToDone(taskLabel, r.live, r.done);
      AfterEvent(r.(live := live, done := done), numCore)
    case ErrorEvent =>
      r.(disconnected := r.disconnected + LiveLabels(r.live),
         outcome := Settle(r.outcome, Rejected(ErrorMessage(taskLabel, cause))))
    case CloseEvent => AfterEvent(r, numCore)
    case DisconnectEvent => AfterEvent(r, numCore)
    case OtherEvent => r
  }

  /** `error()` as written: it calls `task.child.disconnect()` on every live
      record, but `fill` stores the child process under `process`, so
      `task.child` is undefined and the first live task makes the call
      throw a TypeError before `reject` is reached. None stands for that
      throw. */
  function ErrorAsWritten(r: Run, taskLabel: string, cause: string): Option<Run> {
    if |r.live| > 0 then None
    else Some(r.(outcome := Settle(r.outcome, Rejected(ErrorMessage(taskLabel, cause)))))
  }

  /** An error event while a child is running throws a TypeError before
      the `reject` of the `error` case is reached; the corrected step
      rejects and disconnects the child. */
  lemma ErrorAsWrittenThrows()
    ensures var t := Task("task_0", "./task.js", None, false);
      var r := Run([], [t], [], Pending, {});
      ErrorAsWritten(r, "task_0", "spawn failed").None? &&
      Step(r, "task_0", ErrorEvent, "spawn failed", 4).outcome == Rejected("Error with label task_0: spawn failed") &&
      "task_0" in Step(r, "task_0", ErrorEvent, "spawn failed", 4).disconnected
  {
    var t := Task("task_0", "./task.js", None, false);
    assert [t][0].taskLabel == "task_0";
    assert "task_0" in LiveLabels([t]);
  }

  /** The code's `error` against the corrected handler step: it gets
      through exactly when no task is live, and then does what the
      corrected step does, since there is nobody to disconnect. With a live
      task it throws, so a pending promise stays pending where the
      corrected step rejects it. */
  lemma ErrorAsWrittenAgainstStep(r: Run, taskLabel: string, cause: string, numCore: int)
    ensures ErrorAsWritten(r, taskLabel, cause).Some? <==> |r.live| == 0
    ensures |r.live| == 0 ==> (ErrorAsWritten(r, taskLabel, cause) == Some(Step(r, taskLabel, ErrorEvent, cause, numCore)) &&
      Step(r, taskLabel, ErrorEvent, cause, numCore).disconnected == r.disconnected)
    ensures |r.live| > 0 && r.outcome.Pending? ==> (
      ErrorAsWritten(r, taskLabel, cause).None? && Step(r, taskLabel, ErrorEvent, cause, numCore).outcome.Rejected? &&
      r.live[0].taskLabel in Step(r, taskLabel, ErrorEvent, cause, numCore).disconnected)
  {
    if |r.live| == 0 {
      assert LiveLabels(r.live) == {};
      assert r.disconnected + LiveLabels(r.live) == r.disconnected;
      var rejected := Settle(r.outcome, Rejected(ErrorMessage(taskLabel, cause)));
      assert Step(r, taskLabel, ErrorEvent, cause, numCore) == r.(outcome := rejected);
    } else {
      assert r.live[0].taskLabel in LiveLabels(r.live);
    }
  }

  /** With `todo` empty and a task still live, the code after the `switch`
      waits: the run is left as it is. */
  lemma AfterEventWaits(r: Run, numCore: int)
    requires |r.todo| == 0 && |r.live| > 0
    ensures AfterEvent(r, numCore) == r
  {
  }

  /** What the scheduler keeps true between events, for a run started on a
      list whose labels form the multiset `labels`:
      - no task is lost or duplicated: the labels over `todo`, `live` and
        `done` are exactly `labels`;
      - `live` never exceeds the capacity `numCore - 1`;
      - every live task has its dependencies in `done`;
      - `done` is in a dependency-respecting order: each finished task's
        dependencies finished before it;
      - once resolved, the run is empty, and the value is `done`. */
  ghost predicate Inv(r: Run, labels: multiset<string>, numCore: int) {
    && multiset(Labels(r.todo)) + multiset(Labels(r.live)) + multiset(Labels(r.done)) == labels
    && |r.live| <= Max(0, numCore - 1)
    && (forall i :: 0 <= i < |r.live| ==> DepsOk(r.live[i], r.done))
    && (forall i :: 0 <= i < |r.done| ==> DepsOk(r.done[i], r.done[..i]))
    && (r.outcome.Resolved? ==>
         (|r.todo| == 0 && |r.live| == 0 &&
          if r.outcome.value.Some? then r.outcome.value.value == r.done else r.done == []))
  }

  /** A freshly prepared run, before the first `fill`. */
  lemma StartInv(todo: seq<Task>, numCore: int)
    ensures Inv(Run(todo, [], [], Pending, {}), multiset(Labels(todo)), numCore)
  {
  }

  /** `fill` keeps the invariant. */
  lemma FillInv(r: Run, labels: multiset<string>, numCore: int)
    requires Inv(r, labels, numCore)
    ensures var (todo, live) := FillSpec(r.todo, r.live, r.done, numCore);
      Inv(r.(todo := todo, live := live), labels, numCore)
  {
    FillPreservesLabels(r.todo, r.live, r.done, numCore);
    FillWithinCapacity(r.todo, r.live, r.done, numCore);
    FillDispatchesOnlyReady(r.todo, r.live, r.done, numCore);
    var (todo, live) := FillSpec(r.todo, r.live, r.done, numCore);
    assert forall i :: 0 <= i < |r.live| ==> live[i] == r.live[i];
    if r.outcome.Resolved? {
      assert ClearWaiting(r.todo) == [] && !WorkToDo([]);
    }
  }

  lemma ScheduleInv(tasks: seq<Task>, numCore: int)
    ensures Inv(Schedule(tasks, numCore), multiset(Labels(Prepare(tasks))), numCore)
    ensures Schedule(tasks, numCore).outcome == (if |tasks| == 0 then Resolved(None) else Pending)
    ensures Schedule(tasks, numCore).done == []
  {
    if |tasks| > 0 {
      StartInv(Prepare(tasks), numCore);
      FillInv(Run(Prepare(tasks), [], [], Pending, {}), multiset(Labels(Prepare(tasks))), numCore);
    }
  }

  lemma AfterEventInv(r: Run, labels: multiset<string>, numCore: int)
    requires Inv(r, labels, numCore)
    ensures Inv(AfterEvent(r, numCore), labels, numCore)
  {
    if |r.todo| > 0 {
      FillInv(r, labels, numCore);
    }
  }

  lemma MoveToDoneInv(r: Run, taskLabel: string, labels: multiset<string>, numCore: int)
    requires Inv(r, labels, numCore)
    ensures var (live, done) := MoveToDone(taskLabel, r.live, r.done);
      Inv(r.(live := live, done := done), labels, numCore)
  {
    if r.live != [] {
      var k := MovePosition(taskLabel, r.live);
      var (live, done) := (r.live[..k] + r.live[k + 1..], r.done + [r.live[k]]);
      assert MoveToDone(taskLabel, r.live, r.done) == (live, done);
      MoveAtFacts(r.live, r.done, k);
      MoveAtKeepsOrder(r.live, r.done, k);
      var a := multiset(Labels(r.todo));
      assert a + multiset(Labels(r.live)) + multiset(Labels(r.done)) == labels;
      assert a + multiset(Labels(live)) + multiset(Labels(done)) == a + (multiset(Labels(r.live)) + multiset(Labels(r.done)));
    }
  }

  /** Moving a runnable task to the end of `done` keeps every other live
      task runnable and `done` in dependency order. */
  lemma MoveAtKeepsOrder(live: seq<Task>, done: seq<Task>, k: nat)
    requires k < |live|
    requires forall i :: 0 <= i < |live| ==> DepsOk(live[i], done)
    requires forall i :: 0 <= i < |done| ==> DepsOk(done[i], done[..i])
    ensures var (l, d) := (live[..k] + live[k + 1..], done + [live[k]]);
      (forall i :: 0 <= i < |l| ==> DepsOk(l[i], d)) &&
      (forall i :: 0 <= i < |d| ==> DepsOk(d[i], d[..i]))
  {
    var (l, d) := (live[..k] + live[k + 1..], done + [live[k]]);
    forall i | 0 <= i < |l|
      ensures DepsOk(l[i], d)
    {
      var j := if i < k then i else i + 1;
      assert l[i] == live[j];
      DepsOkGrows(live[j], done, [live[k]]);
    }
    forall i | 0 <= i < |d|
      ensures DepsOk(d[i], d[..i])
    {
      if i < |done| {
        assert d[..i] == done[..i];
      } else {
        assert d[..i] == done;
      }
    }
  }

  /** Every handler call keeps the invariant. */
  lemma StepInv(r: Run, taskLabel: string, action: Action, cause: string, labels: multiset<string>, numCore: int)
    requires Inv(r, labels, numCore)
    ensures Inv(Step(r, taskLabel, action, cause, numCore), labels, numCore)
  {
    match action
    case ExitEvent =>
      MoveToDoneInv(r, taskLabel, labels, numCore);
      var (live, done) := MoveToDone(taskLabel, r.live, r.done);
      AfterEventInv(r.(live := live, done := done), labels, numCore);
    case ErrorEvent =>
    case CloseEvent => AfterEventInv(r, labels, numCore);
    case DisconnectEvent => AfterEventInv(r, labels, numCore);
    case OtherEvent =>
  }

  /** `done` only grows at its end, and a settled promise stays settled. */
  lemma StepMonotone(r: Run, taskLabel: string, action: Action, cause: string, numCore: int)
    ensures var s := Step(r, taskLabel, action, cause, numCore);
      |r.done| <= |s.done| && s.done[..|r.done|] == r.done &&
      (!r.outcome.Pending? ==> s.outcome == r.outcome) &&
      r.disconnected <= s.disconnected
  {
    if action.ExitEvent? {
      MoveToDoneMovesOne(taskLabel, r.live, r.done);
    }
  }

  /** The handler resolves exactly when an `exit`, `close` or `disconnect`
      leaves nothing to do and nothing running, and resolves with `done`. */
  lemma StepResolves(r: Run, taskLabel: string, action: Action, cause: string, numCore: int)
    requires r.outcome.Pending?
    requires action.ExitEvent? || action.CloseEvent? || action.DisconnectEvent?
    ensures var s := Step(r, taskLabel, action, cause, numCore);
      (s.outcome.Resolved? <==> |s.todo| == 0 && |s.live| == 0) &&
      (s.outcome.Resolved? ==> s.outcome.value == Some(s.done)) &&
      !s.outcome.Rejected?
  {
    var q := if action.ExitEvent? then
        var (live, done) := MoveToDone(taskLabel, r.live, r.done); r.(live := live, done := done)
      else r;
    assert Step(r, taskLabel, action, cause, numCore) == AfterEvent(q, numCore);
    if |q.todo| > 0 {
      FillPreservesLabels(q.todo, q.live, q.done, numCore);
      var (todo, live) := FillSpec(q.todo, q.live, q.done, numCore);
      assert multiset(Labels(todo)) + multiset(Labels(live)) == multiset(Labels(q.todo)) + multiset(Labels(q.live));
      assert |multiset(Labels(todo)) + multiset(Labels(live))| == |todo| + |live|;
      assert |multiset(Labels(q.todo)) + multiset(Labels(q.live))| == |q.todo| + |q.live|;
    }
  }

  /** An error event rejects a pending run with the labelled message and
      asks every live child to disconnect; nothing else changes. */
  lemma StepErrorRejects(r: Run, taskLabel: string, cause: string, numCore: int)
    requires r.outcome.Pending?
    ensures var s := Step(r, taskLabel, ErrorEvent, cause, numCore);
      s.outcome == Rejected("Error with label " + taskLabel + ": " + cause) &&
      (forall i :: 0 <= i < |r.live| ==> r.live[i].taskLabel in s.disconnected) &&
      s.todo == r.todo && s.live == r.live && s.done == r.done
  {
  }

  /** An exit event for a running task moves its first live record to the
      end of `done`. */
  lemma StepExitFinishes(r: Run, taskLabel: string, cause: string, numCore: int)
    requires taskLabel in Labels(r.live)
    ensures var s := Step(r, taskLabel, ExitEvent, cause, numCore);
      exists k :: 0 <= k < |r.live| && r.live[k].taskLabel == taskLabel &&
        taskLabel !in Labels(r.live[..k]) && s.done == r.done + [r.live[k]]
  {
    var (live, done) := MoveToDone(taskLabel, r.live, r.done);
    assert |r.live| > 0;
    var k :| 0 <= k < |r.live| && (live, done) == (r.live[..k] + r.live[k + 1..], r.done + [r.live[k]]) &&
      r.live[k].taskLabel == taskLabel && taskLabel !in Labels(r.live[..k]);
  }

  /** With nothing running and no task in `todo` able to run (a dependency
      cycle, or a dependency on a label no task has), no event makes
      progress: the run stays pending forever. The code has no deadlock
      check. */
  lemma StepStuck(r: Run, taskLabel: string, action: Action, cause: string, numCore: int)
    requires r.outcome.Pending? && |r.live| == 0 && |r.todo| > 0
    requires forall i :: 0 <= i < |r.todo| ==> !DepsOk(r.todo[i], r.done)
    requires !action.ErrorEvent?
    ensures var s := Step(r, taskLabel, action, cause, numCore);
      s.outcome.Pending? && |s.live| == 0 && s.done == r.done &&
      forall i :: 0 <= i < |s.todo| ==> !DepsOk(s.todo[i], s.done)
  {
    if !action.OtherEvent? {
      FillBlockedDispatchesNothing(r.todo, r.live, r.done, numCore);
      FillStopsFullOrBlocked(r.todo, r.live, r.done, numCore);
      FillPreservesLabels(r.todo, r.live, r.done, numCore);
      var (todo, live) := FillSpec(r.todo, r.live, r.done, numCore);
      assert multiset(Labels(todo)) + multiset(Labels(live)) == multiset(Labels(r.todo)) + multiset(Labels(r.live));
      assert |multiset(Labels(todo)) + multiset(Labels(live))| == |todo| + |live|;
      assert |multiset(Labels(r.todo)) + multiset(Labels(r.live))| == |r.todo| + |r.live|;
      if !SpaceForWork(r.live, numCore) {
        FillNoSpace(r.todo, r.live, r.done, numCore);
        assert forall i :: 0 <= i < |todo| ==> todo[i] == r.todo[i].(waiting := false);
      }
    }
  }

  /** The task list of task_scheduler/examples/example1.js. */
  function ExampleTasks(): seq<Task> {
    [Task("task1", "./tasks/task1.js", Some(["task3"]), false),
     Task("task2", "./tasks/task2.js", None, false),
     Task("task3", "./tasks/task3.js", None, false),
     Task("task4", "./tasks/task4.js", None, false),
     Task("task5", "./tasks/task5.js", None, false)]
  }

  /** On four CPUs (three slots) the example's first `fill` requeues
      `task1`, which waits for `task3`, and dispatches `task2`, `task3` and
      `task4`. */
  lemma ExampleFirstFill()
    ensures var t := ExampleTasks();
      Schedule(t, 4) == Run([t[4], t[0].(waiting := true)], [t[1], t[2], t[3]], [], Pending, {})
  {
    var t := ExampleTasks();
    PrepareLabelled(t);
    assert !DepsOk(t[0], []) by {
      assert "task3" in t[0].deps.value;
    }
    assert ClearWaiting(t) == t;
    FiveTaskFill(t[0], t[1], t[2], t[3], t[4]);
    assert t == [t[0], t[1], t[2], t[3], t[4]];
  }

  /** The loop on five fresh tasks with three slots, the first blocked and
      the next three runnable. */
  lemma FiveTaskFill(t0: Task, t1: Task, t2: Task, t3: Task, t4: Task)
    requires !t0.waiting && !t1.waiting && !t2.waiting && !t3.waiting && !t4.waiting
    requires !DepsOk(t0, []) && DepsOk(t1, []) && DepsOk(t2, []) && DepsOk(t3, [])
    ensures FillLoop([t0, t1, t2, t3, t4], [], [], 4) == ([t4, t0.(waiting := true)], [t1, t2, t3])
  {
    var w := t0.(waiting := true);
    FillLoopRequeue([t0, t1, t2, t3, t4], [], [], 4);
    assert [t0, t1, t2, t3, t4][1..] + [w] == [t1, t2, t3, t4, w];
    FillLoopDispatch([t1, t2, t3, t4, w], [], [], 4);
    assert [t1, t2, t3, t4, w][1..] == [t2, t3, t4, w] && [] + [t1] == [t1];
    FillLoopDispatch([t2, t3, t4, w], [t1], [], 4);
    assert [t2, t3, t4, w][1..] == [t3, t4, w] && [t1] + [t2] == [t1, t2];
    FillLoopDispatch([t3, t4, w], [t1, t2], [], 4);
    assert [t1, t2] + [t3] == [t1, t2, t3];
    assert [t3, t4, w][1..] == [t4, w];
    FillLoopStop([t4, w], [t1, t2, t3], [], 4);
  }

  /** Then `task3` exits: it moves to `done`, `task5` takes the free slot,
      and `task1`, now runnable, stays queued until another slot frees. */
  lemma ExampleTask3Exits()
    ensures var t := ExampleTasks();
      var r := Run([t[4], t[0].(waiting := true)], [t[1], t[2], t[3]], [], Pending, {});
      Step(r, "task3", ExitEvent, "", 4) == Run([t[0]], [t[1], t[3], t[4]], [t[2]], Pending, {})
  {
    var t := ExampleTasks();
    var t0, t1, t2, t3, t4 := t[0], t[1], t[2], t[3], t[4];
    var live := [t1, t2, t3];
    assert "task2" != "task3" by {
      assert "task2"[4] != "task3"[4];
    }
    assert MovePosition("task3", live) == 1 by {
      assert live[1..] == [t2, t3];
      assert FindIndex(live, "task3") == 1;
    }
    assert MoveToDone("task3", live, []) == ([t1, t3], [t2]) by {
      assert live[..1] + live[2..] == [t1, t3];
      assert [] + [live[1]] == [t2];
    }
    var cleared := ClearWaiting([t4, t0.(waiting := true)]);
    assert cleared == [t4, t0];
    FillLoopDispatch([t4, t0], [t1, t3], [t2], 4);
    assert [t4, t0][1..] == [t0];
    FillLoopStop([t0], [t1, t3, t4], [t2], 4);
  }

  /** The run and its event handler. `numCore` is the number of CPUs. */
  class TaskScheduler {
    const numCore: int
    var todo: seq<Task>
    var live: seq<Task>
    var done: seq<Task>
    var outcome: Settlement
    var disconnected: set<string>
    /** The labels the run started with. */
    ghost var labels: multiset<string>

    function State(): Run
      reads this
    {
      Run(todo, live, done, outcome, disconnected)
    }

    ghost predicate Valid()
      reads this
    {
      Inv(State(), labels, numCore)
    }

    /** `schedule(tasks)`: prepare the list and fill. */
    constructor (tasks: seq<Task>, numCore: int)
      ensures Valid() && this.numCore == numCore
      ensures labels == multiset(Labels(Prepare(tasks)))
      ensures State() == Schedule(tasks, numCore)
    {
      this.numCore := numCore;
      todo, live, done := [], [], [];
      outcome, disconnected := Resolved(None), {};
      labels := multiset{};
      new;
      if |tasks| > 0 {
        var prepared := Prepare(tasks);
        todo, outcome := prepared, Pending;
        labels := multiset(Labels(prepared));
        StartInv(prepared, numCore);
        assert State() == Run(prepared, [], [], Pending, {});
        Fill();
      }
    }

    /** `fill`: clear the waiting flags, then while some task is not waiting
        and a slot is free, take the head of `todo` and either requeue it
        marked waiting or dispatch it to `live`. */
    method Fill()
      requires Valid()
      modifies `todo, `live
      ensures Valid()
      ensures (todo, live) == FillSpec(old(todo), old(live), done, numCore)
    {
      ghost var before := State();
      FillInv(before, labels, numCore);
      todo := ClearWaiting(todo);
      while WorkToDo(todo) && SpaceForWork(live, numCore)
        invariant FillLoop(todo, live, done, numCore) == FillSpec(old(todo), old(live), done, numCore)
        decreases NonWaiting(todo), FirstNonWaiting(todo)
      {
        var task := todo[0];
        var rest := todo[1..];
        if !DepsOk(task, done) {
          StepDecreases(todo, rest + [task.(waiting := true)]);
          todo := rest + [task.(waiting := true)];
          continue;
        }
        StepDecreases(todo, rest);
        todo, live := rest, live + [task];
      }
      assert State() == before.(todo := todo, live := live);
    }

    /** The `error` case's cleanup, with the call that reaches each live
        child: every live task's label is added to `disconnected`. */
    method DisconnectAll()
      modifies `disconnected
      ensures disconnected == old(disconnected) + LiveLabels(live)
    {
      var i := 0;
      while i < |live|
        invariant 0 <= i <= |live|
        invariant disconnected == old(disconnected) + set j | 0 <= j < i :: live[j].taskLabel
      {
        disconnected := disconnected + {live[i].taskLabel};
        i := i + 1;
      }
    }

    /** The code after the `switch`: resolve, wait, or refill. */
    method AfterEventStep()
      requires Valid()
      modifies `todo, `live, `outcome
      ensures Valid()
      ensures State() == AfterEvent(old(State()), numCore)
    {
      AfterEventInv(State(), labels, numCore);
      if |todo| == 0 && |live| == 0 {
        outcome := Settle(outcome, Resolved(Some(done)));
        return;
      }
      if |todo| == 0 {
        return;
      }
      Fill();
    }

    /** The `exit` case: move the task to `done`, then the code after the
        `switch`. */
    method Exit(taskLabel: string)
      requires Valid()
      modifies `todo, `live, `done, `outcome
      ensures Valid()
      ensures State() == Step(old(State()), taskLabel, ExitEvent, "", numCore)
    {
      MoveToDoneInv(State(), taskLabel, labels, numCore);
      var moved := MoveToDone(taskLabel, live, done);
      live, done := moved.0, moved.1;
      AfterEventStep();
    }

    /** The `error` case: disconnect every live child, then reject. */
    method Error(taskLabel: string, cause: string)
      requires Valid()
      modifies `disconnected, `outcome
      ensures Valid()
      ensures State() == Step(old(State()), taskLabel, ErrorEvent, cause, numCore)
    {
      ghost var before := State();
      StepInv(before, taskLabel, ErrorEvent, cause, labels, numCore);
      DisconnectAll();
      outcome := Settle(outcome, Rejected(ErrorMessage(taskLabel, cause)));
      assert State() == Step(before, taskLabel, ErrorEvent, cause, numCore);
    }

    /** The handler `(label, action, res) => …` of the promise executor. */
    method Handle(taskLabel: string, action: Action, cause: string)
      requires Valid()
      modifies this
      ensures Valid() && labels == old(labels)
      ensures State() == Step(old(State()), taskLabel, action, cause, numCore)
    {
      match action {
        case ExitEvent => Exit(taskLabel);
        case ErrorEvent => Error(taskLabel, cause);
        case CloseEvent => AfterEventStep();
        case DisconnectEvent => AfterEventStep();
        case OtherEvent =>
      }
    }
  }
}
