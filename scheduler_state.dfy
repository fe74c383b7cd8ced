/** The pure part of the in-process scheduler in task_scheduler/scheduler.js:
    task records, `prepare`, `depsOk`, `workToDo`, `spaceForWork`,
    `moveToDone`, and the refill loop of `fill` written as a recursive
    function over the `todo`/`live` lists (the class in scheduler.dfy runs
    the loop itself and is proved equal to this function). */
module SchedulerState {
  import opened Wrappers
  import Decimal

  /** A task record. `taskLabel` is the task's `label`, with "" standing for
      a missing or empty label (both are falsy); `deps` is None when the
      task has no `deps` field. The child-process handle, the clock fields
      and `args`/`opts` are not modelled. */
  datatype Task = Task(taskLabel: string, path: string, deps: Option<seq<string>>, waiting: bool)

  /** The state of the promise `schedule` returns. An empty schedule
      resolves with `undefined` (None); a finished one with `done`. */
  datatype Settlement = Pending | Resolved(value: Option<seq<Task>>) | Rejected(message: string)

  function Max(a: int, b: int): int {
    if a < b then b else a
  }

  function Labels(s: seq<Task>): seq<string> {
    seq(|s|, i requires 0 <= i < |s| => s[i].taskLabel)
  }

  lemma LabelsAppend(a: seq<Task>, b: seq<Task>)
    ensures Labels(a + b) == Labels(a) + Labels(b)
  {
  }

  // ---------------------------------------------------------------------
  // prepare

  /** The label `prepare` gives an unlabelled task: `task_<index>`. */
  function AutoLabel(index: nat): string {
    "task_" + Decimal.NatToString(index)
  }

  function PrepareFrom(tasks: seq<Task>, offset: nat): (r: seq<Task>)
    ensures |r| == |tasks|
    ensures forall i :: 0 <= i < |tasks| ==>
      r[i].taskLabel == (if tasks[i].taskLabel == "" then AutoLabel(offset + i) else tasks[i].taskLabel)
    ensures forall i :: 0 <= i < |tasks| ==> r[i] == tasks[i].(taskLabel := r[i].taskLabel)
  {
    if tasks == [] then []
    else
      var t := tasks[0];
      [if t.taskLabel == "" then t.(taskLabel := AutoLabel(offset)) else t] + PrepareFrom(tasks[1..], offset + 1)
  }

  /** `prepare`: same length and order; a falsy label becomes `task_<index>`,
      every other field and every non-empty label is kept. */
  function Prepare(tasks: seq<Task>): (r: seq<Task>)
    ensures |r| == |tasks|
    ensures forall i :: 0 <= i < |tasks| ==>
      r[i].taskLabel == (if tasks[i].taskLabel == "" then AutoLabel(i) else tasks[i].taskLabel)
    ensures forall i :: 0 <= i < |tasks| ==> r[i] == tasks[i].(taskLabel := r[i].taskLabel)
  {
    PrepareFrom(tasks, 0)
  }

  /** After `prepare` no label is falsy, and two tasks that were both
      unlabelled get different labels. */
  lemma PrepareLabels(tasks: seq<Task>)
    ensures forall i :: 0 <= i < |tasks| ==> Prepare(tasks)[i].taskLabel != ""
    ensures forall i, j :: 0 <= i < j < |tasks| && tasks[i].taskLabel == "" && tasks[j].taskLabel == "" ==>
      Prepare(tasks)[i].taskLabel != Prepare(tasks)[j].taskLabel
  {
    var r := Prepare(tasks);
    forall i | 0 <= i < |tasks|
      ensures r[i].taskLabel != ""
    {
      if tasks[i].taskLabel == "" {
        assert |AutoLabel(i)| > 0;
      }
    }
    forall i, j | 0 <= i < j < |tasks| && tasks[i].taskLabel == "" && tasks[j].taskLabel == ""
      ensures r[i].taskLabel != r[j].taskLabel
    {
      AutoLabelInjective(i, j);
    }
  }

  /** A list whose tasks are all labelled is left as it is. */
  lemma PrepareLabelled(tasks: seq<Task>)
    requires forall i :: 0 <= i < |tasks| ==> tasks[i].taskLabel != ""
    ensures Prepare(tasks) == tasks
  {
  }

  lemma AutoLabelInjective(i: nat, j: nat)
    ensures AutoLabel(i) == AutoLabel(j) ==> i == j
  {
    if AutoLabel(i) == AutoLabel(j) {
      assert AutoLabel(i)[5..] == Decimal.NatToString(i);
      assert AutoLabel(j)[5..] == Decimal.NatToString(j);
      Decimal.NatToStringInjective(i, j);
    }
  }

  // ---------------------------------------------------------------------
  // depsOk, workToDo, spaceForWork

  /** The `findIndex` search by label: the first position holding a task
      with that label, or -1 when there is none. */
  function FindIndex(s: seq<Task>, taskLabel: string): (i: int)
    ensures -1 <= i < |s|
    ensures 0 <= i ==> s[i].taskLabel == taskLabel
    ensures forall j :: 0 <= j < |s| && (i == -1 || j < i) ==> s[j].taskLabel != taskLabel
  {
    if |s| == 0 then -1
    else if s[0].taskLabel == taskLabel then 0
    else
      var k := FindIndex(s[1..], taskLabel);
      if k == -1 then -1 else k + 1
  }

  /** Whether every dependency is the label of some finished task. */
  function AllDone(deps: seq<string>, done: seq<Task>): (ok: bool)
    ensures ok <==> forall d :: d in deps ==> d in Labels(done)
  {
    if deps == [] then true
    else
      var i := FindIndex(done, deps[0]);
      assert i >= 0 ==> Labels(done)[i] == deps[0];
      assert i == -1 ==> deps[0] !in Labels(done);
      assert forall d :: d in deps <==> d == deps[0] || d in deps[1..];
      (i > -1) && AllDone(deps[1..], done)
  }

  /** `depsOk`: a task without deps, or with an empty deps array, may run;
      otherwise every dependency must be the label of a finished task. */
  function DepsOk(task: Task, done: seq<Task>): (ok: bool)
    ensures ok <==> task.deps.None? || forall d :: d in task.deps.value ==> d in Labels(done)
  {
    if task.deps.None? || |task.deps.value| == 0 then true else AllDone(task.deps.value, done)
  }

  /** Finishing more tasks never makes a runnable task unrunnable. */
  lemma DepsOkGrows(task: Task, done: seq<Task>, more: seq<Task>)
    requires DepsOk(task, done)
    ensures DepsOk(task, done + more)
  {
    LabelsAppend(done, more);
  }

  function AnyNotWaiting(s: seq<Task>): (r: bool)
    ensures r <==> exists i :: 0 <= i < |s| && !s[i].waiting
  {
    if s == [] then false
    else if !s[0].waiting then true
    else
      assert forall i :: 1 <= i < |s| ==> s[i] == s[1..][i - 1];
      AnyNotWaiting(s[1..])
  }

  /** `workToDo`: false on an empty list, otherwise whether some task is not
      marked waiting. */
  function WorkToDo(todo: seq<Task>): (r: bool)
    ensures r <==> exists i :: 0 <= i < |todo| && !todo[i].waiting
  {
    if |todo| == 0 then false else AnyNotWaiting(todo)
  }

  /** `spaceForWork`: a slot is free while fewer tasks are live than one
      less than the number of cores. */
  predicate SpaceForWork(live: seq<Task>, numCore: int) {
    |live| < numCore - 1
  }

  // ---------------------------------------------------------------------
  // fill

  /** The first statement of `fill`: a copy of every queued task with its
      waiting flag cleared, in the same order. */
  function ClearWaiting(todo: seq<Task>): seq<Task> {
    seq(|todo|, i requires 0 <= i < |todo| => todo[i].(waiting := false))
  }

  function NonWaiting(s: seq<Task>): nat {
    if s == [] then 0 else (if s[0].waiting then 0 else 1) + NonWaiting(s[1..])
  }

  function FirstNonWaiting(s: seq<Task>): nat {
    if s == [] || !s[0].waiting then 0 else 1 + FirstNonWaiting(s[1..])
  }

  lemma {:induction false} NonWaitingAppend(a: seq<Task>, b: seq<Task>)
    ensures NonWaiting(a + b) == NonWaiting(a) + NonWaiting(b)
  {
    if a != [] {
      assert (a + b)[0] == a[0];
      assert (a + b)[1..] == a[1..] + b;
      NonWaitingAppend(a[1..], b);
    } else {
      assert a + b == b;
    }
  }

  lemma {:induction false} FirstNonWaitingAppend(a: seq<Task>, b: seq<Task>)
    requires AnyNotWaiting(a)
    ensures FirstNonWaiting(a + b) == FirstNonWaiting(a)
  {
    if a[0].waiting {
      assert (a + b)[1..] == a[1..] + b;
      FirstNonWaitingAppend(a[1..], b);
    }
  }

  /** The termination measure of the refill loop: the number of tasks not
      marked waiting, then the position of the first of them. Requeueing
      or dispatching the head lowers it. */
  lemma StepDecreases(todo: seq<Task>, next: seq<Task>)
    requires WorkToDo(todo)
    requires next == todo[1..] || next == todo[1..] + [todo[0].(waiting := true)]
    ensures NonWaiting(next) < NonWaiting(todo)
         || (NonWaiting(next) == NonWaiting(todo) && FirstNonWaiting(next) < FirstNonWaiting(todo))
  {
    NonWaitingAppend(todo[1..], [todo[0].(waiting := true)]);
    if todo[0].waiting {
      assert AnyNotWaiting(todo[1..]);
      FirstNonWaitingAppend(todo[1..], [todo[0].(waiting := true)]);
    }
  }

  /** The `while` loop of `fill`: while some task is not waiting and a slot
      is free, take the head; requeue it at the tail marked waiting if its
      dependencies are unmet, otherwise dispatch it to `live`. `done` is
      never touched. Returns the final `todo` and `live`. */
  function FillLoop(todo: seq<Task>, live: seq<Task>, done: seq<Task>, numCore: int): (seq<Task>, seq<Task>)
    decreases NonWaiting(todo), FirstNonWaiting(todo)
  {
    if WorkToDo(todo) && SpaceForWork(live, numCore) then
      var task := todo[0];
      if !DepsOk(task, done) then
        var next := todo[1..] + [task.(waiting := true)];
        StepDecreases(todo, next);
        FillLoop(next, live, done, numCore)
      else
        StepDecreases(todo, todo[1..]);
        FillLoop(todo[1..], live + [task], done, numCore)
    else (todo, live)
  }

  /** One turn of the loop on a runnable head: it is dispatched. */
  lemma FillLoopDispatch(todo: seq<Task>, live: seq<Task>, done: seq<Task>, numCore: int)
    requires todo != [] && !todo[0].waiting && SpaceForWork(live, numCore) && DepsOk(todo[0], done)
    ensures FillLoop(todo, live, done, numCore) == FillLoop(todo[1..], live + [todo[0]], done, numCore)
  {
    assert WorkToDo(todo);
  }

  /** With no free slot the loop stops at once. */
  lemma FillLoopStop(todo: seq<Task>, live: seq<Task>, done: seq<Task>, numCore: int)
    requires !SpaceForWork(live, numCore)
    ensures FillLoop(todo, live, done, numCore) == (todo, live)
  {
  }

  /** One turn of the loop on a blocked head: it goes to the tail, waiting. */
  lemma FillLoopRequeue(todo: seq<Task>, live: seq<Task>, done: seq<Task>, numCore: int)
    requires todo != [] && !todo[0].waiting && SpaceForWork(live, numCore) && !DepsOk(todo[0], done)
    ensures FillLoop(todo, live, done, numCore) == FillLoop(todo[1..] + [todo[0].(waiting := true)], live, done, numCore)
  {
    assert WorkToDo(todo);
  }

  /** `fill`: clear every waiting flag, then run the loop. */
  function FillSpec(todo: seq<Task>, live: seq<Task>, done: seq<Task>, numCore: int): (seq<Task>, seq<Task>) {
    FillLoop(ClearWaiting(todo), live, done, numCore)
  }

  /** The tasks of `s` the loop dispatches, in order. */
  function Ready(s: seq<Task>, done: seq<Task>): (r: seq<Task>)
    ensures forall i :: 0 <= i < |r| ==> DepsOk(r[i], done)
  {
    if s == [] then [] else (if DepsOk(s[0], done) then [s[0]] else []) + Ready(s[1..], done)
  }

  /** The tasks of `s` the loop requeues, in order, as they land at the tail. */
  function Requeued(s: seq<Task>, done: seq<Task>): (r: seq<Task>)
    ensures forall i :: 0 <= i < |r| ==> r[i].waiting && !DepsOk(r[i], done)
  {
    if s == [] then [] else (if DepsOk(s[0], done) then [] else [s[0].(waiting := true)]) + Requeued(s[1..], done)
  }

  /** Every task of `s` is either dispatched or requeued: none is lost and
      none is duplicated. */
  lemma LabelsCons(x: Task, r: seq<Task>)
    ensures multiset(Labels([x] + r)) == multiset{x.taskLabel} + multiset(Labels(r))
  {
    LabelsAppend([x], r);
    assert Labels([x]) == [x.taskLabel];
  }

  lemma {:induction false} ReadyRequeuedLabels(s: seq<Task>, done: seq<Task>)
    ensures multiset(Labels(Ready(s, done))) + multiset(Labels(Requeued(s, done))) == multiset(Labels(s))
  {
    if s != [] {
      var x, rest := s[0], s[1..];
      ReadyRequeuedLabels(rest, done);
      var ready, back := Ready(rest, done), Requeued(rest, done);
      assert s == [x] + rest;
      LabelsCons(x, rest);
      if DepsOk(x, done) {
        assert Ready(s, done) == [x] + ready;
        assert Requeued(s, done) == back;
        LabelsCons(x, ready);
      } else {
        assert Ready(s, done) == ready;
        assert Requeued(s, done) == [x.(waiting := true)] + back;
        LabelsCons(x.(waiting := true), back);
      }
    }
  }

  /** When no task of `s` can run, nothing is dispatched and every task is
      requeued with `waiting` set. */
  lemma {:induction false} AllBlocked(s: seq<Task>, done: seq<Task>)
    requires forall i :: 0 <= i < |s| ==> !DepsOk(s[i], done)
    ensures Ready(s, done) == []
    ensures |Requeued(s, done)| == |s|
    ensures forall i :: 0 <= i < |s| ==> Requeued(s, done)[i] == s[i].(waiting := true)
  {
    if s != [] {
      AllBlocked(s[1..], done);
    }
  }

  lemma SliceFacts(u: seq<Task>, k: nat)
    requires 0 < |u| && k < |u|
    ensures u[..k + 1] == [u[0]] + u[1..][..k]
    ensures u[1..][k..] == u[k + 1..]
  {
  }

  /** How the loop ends when `todo` is a run `u` of unvisited tasks followed
      by a run `w` of tasks already requeued: some prefix `u[..k]` has been
      visited, its runnable tasks appended to `live` and the others appended
      to the tail of `todo` marked waiting; the loop stopped early only when
      `live` was full; `live` never grew past the capacity. */
  ghost predicate FillShaped(u: seq<Task>, w: seq<Task>, live: seq<Task>, done: seq<Task>, numCore: int, k: nat)
    requires k <= |u|
  {
    && FillLoop(u + w, live, done, numCore) == (u[k..] + w + Requeued(u[..k], done), live + Ready(u[..k], done))
    && (k < |u| ==> !SpaceForWork(live + Ready(u[..k], done), numCore))
    && (!SpaceForWork(live, numCore) ==> k == 0)
    && |live + Ready(u[..k], done)| <= Max(|live|, numCore - 1)
  }

  /** The loop does nothing when no unvisited task is left or no slot is
      free. */
  lemma ShapeStop(u: seq<Task>, w: seq<Task>, live: seq<Task>, done: seq<Task>, numCore: int)
    requires forall i :: 0 <= i < |w| ==> w[i].waiting
    requires u == [] || !SpaceForWork(live, numCore)
    ensures FillShaped(u, w, live, done, numCore, 0)
  {
    assert u[..0] == [] && u[0..] == u;
    assert Ready([], done) == [] && Requeued([], done) == [];
    assert live + [] == live && u + w + [] == u + w;
    if u == [] {
      assert u + w == w;
      assert !WorkToDo(u + w);
    }
  }

  /** A requeue step extends the visited prefix by one. */
  lemma ShapeRequeue(u: seq<Task>, w: seq<Task>, live: seq<Task>, done: seq<Task>, numCore: int, k: nat)
    requires u != [] && !u[0].waiting && SpaceForWork(live, numCore) && !DepsOk(u[0], done)
    requires k <= |u| - 1 && FillShaped(u[1..], w + [u[0].(waiting := true)], live, done, numCore, k)
    ensures FillShaped(u, w, live, done, numCore, k + 1)
  {
    var task := u[0];
    var w' := w + [task.(waiting := true)];
    assert (u + w)[1..] + [task.(waiting := true)] == u[1..] + w';
    assert (u + w)[0] == task;
    FillLoopRequeue(u + w, live, done, numCore);
    SliceFacts(u, k);
    assert Requeued(u[..k + 1], done) == [task.(waiting := true)] + Requeued(u[1..][..k], done);
    assert Ready(u[..k + 1], done) == Ready(u[1..][..k], done);
    assert u[1..][k..] + w' + Requeued(u[1..][..k], done) == u[k + 1..] + w + Requeued(u[..k + 1], done);
  }

  /** A dispatch step extends the visited prefix by one. */
  lemma ShapeDispatch(u: seq<Task>, w: seq<Task>, live: seq<Task>, done: seq<Task>, numCore: int, k: nat)
    requires u != [] && !u[0].waiting && SpaceForWork(live, numCore) && DepsOk(u[0], done)
    requires k <= |u| - 1 && FillShaped(u[1..], w, live + [u[0]], done, numCore, k)
    ensures FillShaped(u, w, live, done, numCore, k + 1)
  {
    var task := u[0];
    assert (u + w)[1..] == u[1..] + w;
    assert (u + w)[0] == task;
    FillLoopDispatch(u + w, live, done, numCore);
    SliceFacts(u, k);
    assert Requeued(u[..k + 1], done) == Requeued(u[1..][..k], done);
    assert Ready(u[..k + 1], done) == [task] + Ready(u[1..][..k], done);
    assert live + [task] + Ready(u[1..][..k], done) == live + Ready(u[..k + 1], done);
  }

  lemma {:induction false} FillLoopShape(u: seq<Task>, w: seq<Task>, live: seq<Task>, done: seq<Task>, numCore: int)
    requires forall i :: 0 <= i < |u| ==> !u[i].waiting
    requires forall i :: 0 <= i < |w| ==> w[i].waiting
    ensures exists k: nat :: k <= |u| && FillShaped(u, w, live, done, numCore, k)
    decreases |u|
  {
    if u == [] || !SpaceForWork(live, numCore) {
      ShapeStop(u, w, live, done, numCore);
    } else if !DepsOk(u[0], done) {
      var w' := w + [u[0].(waiting := true)];
      FillLoopShape(u[1..], w', live, done, numCore);
      var k: nat :| k <= |u[1..]| && FillShaped(u[1..], w', live, done, numCore, k);
      ShapeRequeue(u, w, live, done, numCore, k);
    } else {
      FillLoopShape(u[1..], w, live + [u[0]], done, numCore);
      var k: nat :| k <= |u[1..]| && FillShaped(u[1..], w, live + [u[0]], done, numCore, k);
      ShapeDispatch(u, w, live, done, numCore, k);
    }
  }

  /** The outcome of `fill`, exactly: with `c` the todo list with its waiting
      flags cleared, some prefix `c[..k]` is visited; its runnable tasks are
      appended to `live` in order, its blocked tasks go to the tail of `todo`
      marked waiting, and the rest of `c` keeps its order at the front. */
  lemma FillSpecShape(todo: seq<Task>, live: seq<Task>, done: seq<Task>, numCore: int)
    ensures exists k: nat :: k <= |todo| && FillShaped(ClearWaiting(todo), [], live, done, numCore, k)
    ensures exists k: nat :: (k <= |todo| &&
      var c := ClearWaiting(todo);
      FillSpec(todo, live, done, numCore) == (c[k..] + Requeued(c[..k], done), live + Ready(c[..k], done)))
  {
    var c := ClearWaiting(todo);
    assert c + [] == c;
    FillLoopShape(c, [], live, done, numCore);
    var k: nat :| k <= |c| && FillShaped(c, [], live, done, numCore, k);
    assert c[k..] + [] + Requeued(c[..k], done) == c[k..] + Requeued(c[..k], done);
  }

  /** `fill` only appends to `live`, and only tasks whose dependencies are
      all in `done`. */
  lemma FillDispatchesOnlyReady(todo: seq<Task>, live: seq<Task>, done: seq<Task>, numCore: int)
    ensures var r := FillSpec(todo, live, done, numCore);
      |live| <= |r.1| && r.1[..|live|] == live &&
      forall i :: |live| <= i < |r.1| ==> DepsOk(r.1[i], done)
  {
    FillSpecShape(todo, live, done, numCore);
    var c := ClearWaiting(todo);
    var k: nat :| k <= |todo| && FillSpec(todo, live, done, numCore) == (c[k..] + Requeued(c[..k], done), live + Ready(c[..k], done));
    var r := FillSpec(todo, live, done, numCore);
    assert forall i :: |live| <= i < |r.1| ==> r.1[i] == Ready(c[..k], done)[i - |live|];
  }

  /** The multiset of labels over `todo` and `live` is the same before and
      after `fill`. */
  lemma FillPreservesLabels(todo: seq<Task>, live: seq<Task>, done: seq<Task>, numCore: int)
    ensures var r := FillSpec(todo, live, done, numCore);
      multiset(Labels(r.0)) + multiset(Labels(r.1)) == multiset(Labels(todo)) + multiset(Labels(live))
  {
    FillSpecShape(todo, live, done, numCore);
    var c := ClearWaiting(todo);
    var k: nat :| k <= |todo| && FillSpec(todo, live, done, numCore) == (c[k..] + Requeued(c[..k], done), live + Ready(c[..k], done));
    ReadyRequeuedLabels(c[..k], done);
    LabelsAppend(c[k..], Requeued(c[..k], done));
    LabelsAppend(live, Ready(c[..k], done));
    LabelsAppend(c[..k], c[k..]);
    assert c[..k] + c[k..] == c;
    assert Labels(c) == Labels(todo);
  }

  /** When `fill` returns, either `live` is full or every task left in
      `todo` is marked waiting and still has unmet dependencies. */
  lemma FillStopsFullOrBlocked(todo: seq<Task>, live: seq<Task>, done: seq<Task>, numCore: int)
    ensures var r := FillSpec(todo, live, done, numCore);
      |r.1| >= numCore - 1 || forall i :: 0 <= i < |r.0| ==> r.0[i].waiting && !DepsOk(r.0[i], done)
  {
    FillSpecShape(todo, live, done, numCore);
    var c := ClearWaiting(todo);
    var k: nat :| k <= |todo| && FillShaped(c, [], live, done, numCore, k);
    assert c + [] == c;
    if k == |c| {
      assert c[k..] + [] + Requeued(c[..k], done) == Requeued(c[..k], done);
    }
  }

  /** `live` grows only while below capacity:
      `|live| <= max(initial size, numCore - 1)` after `fill`. */
  lemma FillWithinCapacity(todo: seq<Task>, live: seq<Task>, done: seq<Task>, numCore: int)
    ensures |FillSpec(todo, live, done, numCore).1| <= Max(|live|, numCore - 1)
  {
    FillSpecShape(todo, live, done, numCore);
    var c := ClearWaiting(todo);
    var k: nat :| k <= |todo| && FillShaped(c, [], live, done, numCore, k);
    assert c + [] == c;
  }

  /** With `numCore <= 1` there is never a free slot: nothing is dispatched. */
  lemma FillSingleCoreDispatchesNothing(todo: seq<Task>, live: seq<Task>, done: seq<Task>, numCore: int)
    requires numCore <= 1
    ensures FillSpec(todo, live, done, numCore).1 == live
  {
    FillWithinCapacity(todo, live, done, numCore);
    FillDispatchesOnlyReady(todo, live, done, numCore);
  }

  /** If no task in `todo` can run, `fill` dispatches nothing. So a
      dependency cycle, or a dependency on a label that never exists, with
      `live` empty, leaves the run waiting forever: the code has no
      deadlock check. */
  lemma FillBlockedDispatchesNothing(todo: seq<Task>, live: seq<Task>, done: seq<Task>, numCore: int)
    requires forall i :: 0 <= i < |todo| ==> !DepsOk(todo[i], done)
    ensures FillSpec(todo, live, done, numCore).1 == live
  {
    FillSpecShape(todo, live, done, numCore);
    var c := ClearWaiting(todo);
    var k: nat :| k <= |todo| && FillSpec(todo, live, done, numCore) == (c[k..] + Requeued(c[..k], done), live + Ready(c[..k], done));
    assert forall i :: 0 <= i < k ==> c[..k][i] == todo[i].(waiting := false);
    AllBlocked(c[..k], done);
  }

  lemma ClearWaitingTwice(todo: seq<Task>)
    ensures ClearWaiting(ClearWaiting(todo)) == ClearWaiting(todo)
    ensures Labels(ClearWaiting(todo)) == Labels(todo)
  {
  }

  /** With `live` already full, `fill` only clears the waiting flags. */
  lemma FillNoSpace(todo: seq<Task>, live: seq<Task>, done: seq<Task>, numCore: int)
    requires !SpaceForWork(live, numCore)
    ensures FillSpec(todo, live, done, numCore) == (ClearWaiting(todo), live)
  {
  }

  /** With a free slot and no runnable task, `fill` visits every task once
      and leaves each marked waiting, in the same order. */
  lemma FillAllBlocked(todo: seq<Task>, live: seq<Task>, done: seq<Task>, numCore: int)
    requires SpaceForWork(live, numCore)
    requires forall i :: 0 <= i < |todo| ==> !DepsOk(todo[i], done)
    ensures FillSpec(todo, live, done, numCore).1 == live
    ensures |FillSpec(todo, live, done, numCore).0| == |todo|
    ensures forall i :: 0 <= i < |todo| ==> FillSpec(todo, live, done, numCore).0[i] == todo[i].(waiting := true)
  {
    var c := ClearWaiting(todo);
    AllBlockedRequeued(todo, live, done, numCore);
    AllBlocked(c, done);
    assert forall i :: 0 <= i < |todo| ==> c[i].(waiting := true) == todo[i].(waiting := true);
  }

  /** The loop over a list with no runnable task requeues all of it. */
  lemma AllBlockedRequeued(todo: seq<Task>, live: seq<Task>, done: seq<Task>, numCore: int)
    requires SpaceForWork(live, numCore)
    requires forall i :: 0 <= i < |todo| ==> !DepsOk(todo[i], done)
    ensures FillSpec(todo, live, done, numCore) == (Requeued(ClearWaiting(todo), done), live)
    ensures forall i :: 0 <= i < |todo| ==> !DepsOk(ClearWaiting(todo)[i], done)
  {
    FillSpecShape(todo, live, done, numCore);
    var c := ClearWaiting(todo);
    assert forall i :: 0 <= i < |c| ==> !DepsOk(c[i], done) by {
      forall i | 0 <= i < |c|
        ensures !DepsOk(c[i], done)
      {
        assert c[i] == todo[i].(waiting := false);
      }
    }
    var k: nat :| k <= |todo| && FillShaped(c, [], live, done, numCore, k);
    assert c + [] == c;
    assert FillSpec(todo, live, done, numCore) == (c[k..] + [] + Requeued(c[..k], done), live + Ready(c[..k], done));
    assert forall i :: 0 <= i < k ==> c[..k][i] == c[i];
    AllBlocked(c[..k], done);
    assert live + Ready(c[..k], done) == live;
    assert k == |c|;
    assert c[..k] == c && c[k..] + [] == [];
    assert c[k..] + [] + Requeued(c[..k], done) == Requeued(c, done);
  }

  /** A second `fill` with `done` unchanged changes neither `live` nor the
      order of `todo`; at most the waiting flags are recomputed. */
  lemma FillIdempotent(todo: seq<Task>, live: seq<Task>, done: seq<Task>, numCore: int)
    ensures var first := FillSpec(todo, live, done, numCore);
      var second := FillSpec(first.0, first.1, done, numCore);
      second.1 == first.1 && Labels(second.0) == Labels(first.0) &&
      ClearWaiting(second.0) == ClearWaiting(first.0)
  {
    var first := FillSpec(todo, live, done, numCore);
    var t1, l1 := first.0, first.1;
    ClearWaitingTwice(t1);
    if !SpaceForWork(l1, numCore) {
      FillNoSpace(t1, l1, done, numCore);
    } else {
      FillStopsFullOrBlocked(todo, live, done, numCore);
      FillAllBlocked(t1, l1, done, numCore);
      var t2 := FillSpec(t1, l1, done, numCore).0;
      assert forall i :: 0 <= i < |t1| ==> t2[i] == t1[i];
      assert t2 == t1;
    }
  }

  // ---------------------------------------------------------------------
  // moveToDone

  /** `moveToDone`. `live.get(index)` and `live.splice(index, 1)` are
      Immutable.js List operations, which read an index of -1 as the last
      element: a label missing from a non-empty `live` moves the last live
      task to `done`. Only an empty `live` is left unchanged. */
  function MoveToDone(taskLabel: string, live: seq<Task>, done: seq<Task>): (r: (seq<Task>, seq<Task>))
    ensures live == [] ==> r == (live, done)
    ensures live != [] ==> exists k :: (0 <= k < |live| &&
      r == (live[..k] + live[k + 1..], done + [live[k]]) &&
      (if taskLabel in Labels(live)
       then live[k].taskLabel == taskLabel && taskLabel !in Labels(live[..k])
       else k == |live| - 1))
  {
    var position := MovePosition(taskLabel, live);
    if 0 <= position < |live| then (live[..position] + live[position + 1..], done + [live[position]])
    else (live, done)
  }

  /** The index `moveToDone` reads and splices: that of the first live
      task with the label, or -1 (the last element) when there is none. */
  function MovePosition(taskLabel: string, live: seq<Task>): (k: int)
    ensures live == [] ==> k == -1
    ensures live != [] ==> (0 <= k < |live| &&
      (if taskLabel in Labels(live)
       then live[k].taskLabel == taskLabel && taskLabel !in Labels(live[..k])
       else k == |live| - 1))
  {
    var index := FindIndex(live, taskLabel);
    assert index >= 0 ==> Labels(live)[index] == taskLabel;
    // Immutable.js counts a negative index from the end of the list
    if index < 0 then |live| + index else index
  }

  lemma RemoveAtLabels(s: seq<Task>, k: nat)
    requires k < |s|
    ensures multiset(Labels(s[..k] + s[k + 1..])) + multiset{s[k].taskLabel} == multiset(Labels(s))
  {
    LabelsAppend(s[..k], s[k + 1..]);
    LabelsAppend(s[..k], [s[k]] + s[k + 1..]);
    LabelsAppend([s[k]], s[k + 1..]);
    assert s == s[..k] + ([s[k]] + s[k + 1..]);
    assert Labels([s[k]]) == [s[k].taskLabel];
  }

  /** `moveToDone` moves one task from `live` to `done` (none when `live` is
      empty): sizes change by -1/+1, `done` only gains at its end, and the
      multiset of labels over the two lists is kept. */
  lemma MoveToDoneMovesOne(taskLabel: string, live: seq<Task>, done: seq<Task>)
    ensures var r := MoveToDone(taskLabel, live, done);
      |r.0| + |r.1| == |live| + |done| &&
      (live != [] ==> |r.1| == |done| + 1) &&
      r.1[..|done|] == done &&
      multiset(Labels(r.0)) + multiset(Labels(r.1)) == multiset(Labels(live)) + multiset(Labels(done))
  {
    if live != [] {
      var position := MovePosition(taskLabel, live);
      assert MoveToDone(taskLabel, live, done) == (live[..position] + live[position + 1..], done + [live[position]]);
      MoveAtFacts(live, done, position);
    }
  }

  /** Moving the task at position `k` from `live` to the end of `done`. */
  lemma MoveAtFacts(live: seq<Task>, done: seq<Task>, k: nat)
    requires k < |live|
    ensures var (l, d) := (live[..k] + live[k + 1..], done + [live[k]]);
      |l| + 1 == |live| && |d| == |done| + 1 && d[..|done|] == done &&
      multiset(Labels(l)) + multiset(Labels(d)) == multiset(Labels(live)) + multiset(Labels(done))
  {
    RemoveAtLabels(live, k);
    LabelsAppend(done, [live[k]]);
    assert Labels([live[k]]) == [live[k].taskLabel];
    assert (done + [live[k]])[..|done|] == done;
  }

  /** The Immutable.js reading of index -1, on a concrete input: finishing
      an unknown label moves the last live task. */
  lemma MoveToDoneUnknownLabelMovesLast()
    ensures var a := Task("a", "./a.js", None, false);
      var b := Task("b", "./b.js", None, false);
      MoveToDone("c", [a, b], []) == ([a], [b])
  {
    var a := Task("a", "./a.js", None, false);
    var b := Task("b", "./b.js", None, false);
    var live := [a, b];
    assert "a" != "c" && "b" != "c" by {
      assert "a"[0] != "c"[0] && "b"[0] != "c"[0];
    }
    assert live[1..] == [b] && [b][1..] == [];
    assert FindIndex([b], "c") == -1;
    assert FindIndex(live, "c") == -1;
    assert MovePosition("c", live) == 1;
    assert MoveToDone("c", live, []) == (live[..1] + live[2..], [] + [live[1]]);
    assert live[..1] + live[2..] == [a];
    assert [] + [live[1]] == [b];
  }

  /** The rejection message of the `error` case. */
  function ErrorMessage(taskLabel: string, cause: string): string {
    "Error with label " + taskLabel + ": " + cause
  }
}
