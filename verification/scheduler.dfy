/** Running the task map to completion. The dependency-driven scheduling of
    the tasks is abstracted into a sequential rule: a task runs only once all
    of its dependencies have succeeded; a task with a failed or skipped
    dependency never runs. The run succeeds exactly when no task failed. */
module Scheduler {
  import opened Remote
  import opened Tasks

  /** How a task ended. `Skipped` tasks sent no request. */
  datatype Status = Succeeded(url: string) | Errored(error: RemoteError) | Skipped

  /** The work of each task, as the scheduler sees it: what running the
      task's function reports, for the environment of the run. */
  function Work(env: Env): Action -> Outcome
  {
    a => Execute(a, env).outcome
  }

  /** The status a task's work reports when it runs. */
  function Report(o: Outcome): (s: Status)
    ensures s != Skipped
    ensures s.Succeeded? <==> o.Done?
  {
    match o
    case Done(url) => Succeeded(url)
    case Failed(e) => Errored(e)
  }

  /** The status of the task `k` in a run: it is the report of its own work
      when it has no dependency or its dependency succeeded, and `Skipped`
      otherwise. This does not depend on the order in which independent
      tasks run. */
  function StatusOf(tasks: map<string, Task>, k: string, work: Action -> Outcome): Status
    requires Closed(tasks) && k in tasks
    decreases |k|
  {
    var deps := tasks[k].deps;
    if |deps| == 0 || StatusOf(tasks, deps[0], work).Succeeded? then Report(work(tasks[k].action))
    else Skipped
  }

  /** `a` is a proper ancestor of `k` along dependency links. */
  predicate DependsOn(tasks: map<string, Task>, k: string, a: string)
    requires Closed(tasks) && k in tasks
    decreases |k|
  {
    var deps := tasks[k].deps;
    |deps| == 1 && (deps[0] == a || DependsOn(tasks, deps[0], a))
  }

  /** A task that did not succeed blocks every task below it: none of them
      runs, however deep. */
  lemma {:induction false} FailureBlocksDescendants(tasks: map<string, Task>, k: string, a: string, work: Action -> Outcome)
    requires Closed(tasks) && k in tasks && a in tasks
    requires DependsOn(tasks, k, a)
    requires !StatusOf(tasks, a, work).Succeeded?
    ensures StatusOf(tasks, k, work) == Skipped
    decreases |k|
  {
    var d := tasks[k].deps[0];
    if d != a {
      FailureBlocksDescendants(tasks, d, a, work);
    }
  }

  /** A task that ran had every ancestor succeed before it. */
  lemma RanOnlyAfterAncestors(tasks: map<string, Task>, k: string, a: string, work: Action -> Outcome)
    requires Closed(tasks) && k in tasks && a in tasks
    requires DependsOn(tasks, k, a)
    requires StatusOf(tasks, k, work) != Skipped
    ensures StatusOf(tasks, a, work).Succeeded?
  {
    if !StatusOf(tasks, a, work).Succeeded? {
      FailureBlocksDescendants(tasks, k, a, work);
    }
  }

  /** Skipping only ever follows a failure: when no task failed, every task
      succeeded. */
  lemma {:induction false} NoFailureMeansSuccess(tasks: map<string, Task>, k: string, work: Action -> Outcome)
    requires Closed(tasks) && k in tasks
    requires forall j :: j in tasks ==> !StatusOf(tasks, j, work).Errored?
    ensures StatusOf(tasks, k, work).Succeeded?
    decreases |k|
  {
    if |tasks[k].deps| == 1 {
      NoFailureMeansSuccess(tasks, tasks[k].deps[0], work);
    }
    assert !StatusOf(tasks, k, work).Errored?;
  }

  /** `order` lists every task exactly once, each after its dependencies. */
  predicate IsSchedule(tasks: map<string, Task>, order: seq<string>)
  {
    && (forall i :: 0 <= i < |order| ==> order[i] in tasks)
    && (forall k :: k in tasks ==> k in order)
    && (forall i, j :: 0 <= i < j < |order| ==> order[i] != order[j])
    && (forall i, j :: 0 <= i < |order| && 0 <= j < |order| && order[j] in tasks[order[i]].deps ==> j < i)
  }

  /** Listing the keys shortest first is a schedule, since every dependency
      key is shorter than the key depending on it. */
  lemma ShortestFirstIsSchedule(tasks: map<string, Task>, order: seq<string>)
    requires Closed(tasks)
    requires forall i :: 0 <= i < |order| ==> order[i] in tasks
    requires forall k :: k in tasks ==> k in order
    requires forall i, j :: 0 <= i < j < |order| ==> order[i] != order[j]
    requires forall i, j :: 0 <= i < j < |order| ==> |order[i]| <= |order[j]|
    ensures IsSchedule(tasks, order)
  {
    forall i, j | 0 <= i < |order| && 0 <= j < |order| && order[j] in tasks[order[i]].deps
      ensures j < i
    {
      if j >= i {
        assert false;
      }
    }
  }

  /** One step of a sequential run: the status of `k` read off the recorded
      status of its dependency. */
  function Step(tasks: map<string, Task>, statuses: map<string, Status>, k: string, work: Action -> Outcome): Status
    requires k in tasks && |tasks[k].deps| <= 1
    requires |tasks[k].deps| == 1 ==> tasks[k].deps[0] in statuses
  {
    var deps := tasks[k].deps;
    if |deps| == 0 || statuses[deps[0]].Succeeded? then Report(work(tasks[k].action)) else Skipped
  }

  /** The recorded statuses are those `StatusOf` gives. */
  ghost predicate Agrees(tasks: map<string, Task>, statuses: map<string, Status>, work: Action -> Outcome)
    requires Closed(tasks)
  {
    forall k :: k in statuses ==> k in tasks && statuses[k] == StatusOf(tasks, k, work)
  }

  /** Recording the step's status for `k` keeps the statuses agreeing. */
  lemma StepAgrees(tasks: map<string, Task>, statuses: map<string, Status>, k: string, work: Action -> Outcome)
    requires Closed(tasks) && k in tasks && Agrees(tasks, statuses, work)
    requires |tasks[k].deps| == 1 ==> tasks[k].deps[0] in statuses
    ensures Step(tasks, statuses, k, work) == StatusOf(tasks, k, work)
    ensures Agrees(tasks, statuses[k := Step(tasks, statuses, k, work)], work)
  {
  }

  /** Exactly the first `i` tasks of `order` have a recorded status. */
  ghost predicate RecordedUpTo(order: seq<string>, statuses: map<string, Status>, i: int)
  {
    forall j :: 0 <= j < |order| ==> (order[j] in statuses <==> j < i)
  }

  /** No recorded status is a failure. */
  predicate NoneFailed(statuses: map<string, Status>)
  {
    forall k :: k in statuses ==> !statuses[k].Errored?
  }

  /** Recording a status for the next task of a list without repeats
      extends the recorded prefix by one. */
  lemma RecordNext(order: seq<string>, statuses: map<string, Status>, i: nat, s: Status)
    requires i < |order| && RecordedUpTo(order, statuses, i)
    requires forall a, b :: 0 <= a < b < |order| ==> order[a] != order[b]
    ensures RecordedUpTo(order, statuses[order[i] := s], i + 1)
  {
  }

  /** Adding a status for a new key keeps the run free of failures exactly
      when that status is not one. */
  lemma NoneFailedAfterAdding(statuses: map<string, Status>, k: string, s: Status)
    requires k !in statuses
    ensures NoneFailed(statuses[k := s]) <==> NoneFailed(statuses) && !s.Errored?
  {
    if NoneFailed(statuses[k := s]) {
      assert statuses[k := s][k] == s;
      forall k' | k' in statuses
        ensures !statuses[k'].Errored?
      {
        assert statuses[k := s][k'] == statuses[k'];
      }
    }
  }

  /** Running the next task of the schedule: its dependency is already
      recorded, its step gives the status `StatusOf` gives it, and recording
      that status extends the prefix of recorded tasks by one. */
  lemma RunNext(tasks: map<string, Task>, order: seq<string>, statuses: map<string, Status>, i: nat, work: Action -> Outcome)
    requires Closed(tasks) && IsSchedule(tasks, order) && i < |order|
    requires RecordedUpTo(order, statuses, i) && Agrees(tasks, statuses, work)
    ensures |tasks[order[i]].deps| == 1 ==> tasks[order[i]].deps[0] in statuses
    ensures var next := statuses[order[i] := Step(tasks, statuses, order[i], work)];
      && RecordedUpTo(order, next, i + 1)
      && Agrees(tasks, next, work)
      && (NoneFailed(next) <==> NoneFailed(statuses) && !Step(tasks, statuses, order[i], work).Errored?)
  {
    var k := order[i];
    if |tasks[k].deps| == 1 {
      var j :| 0 <= j < |order| && order[j] == tasks[k].deps[0];
      assert j < i;
    }
    var s := Step(tasks, statuses, k, work);
    StepAgrees(tasks, statuses, k, work);
    RecordNext(order, statuses, i, s);
    NoneFailedAfterAdding(statuses, k, s);
  }

  /** Runs the tasks one at a time in schedule order, skipping those whose
      dependency did not succeed, and reports whether the whole run
      succeeded (the final `done()` or `done(false)`). Every task ends with
      the status `StatusOf` gives it, and the run succeeds exactly when no
      task failed, which is exactly when every task succeeded. */
  method Sync(tasks: map<string, Task>, order: seq<string>, work: Action -> Outcome) returns (statuses: map<string, Status>, ok: bool)
    requires Closed(tasks) && IsSchedule(tasks, order)
    ensures statuses.Keys == tasks.Keys
    ensures forall k :: k in tasks ==> statuses[k] == StatusOf(tasks, k, work)
    ensures ok <==> forall k :: k in tasks ==> !statuses[k].Errored?
    ensures ok <==> forall k :: k in tasks ==> statuses[k].Succeeded?
  {
    statuses := map[];
    ok := true;
    var i := 0;
    while i < |order|
      invariant 0 <= i <= |order|
      invariant RecordedUpTo(order, statuses, i)
      invariant Agrees(tasks, statuses, work)
      invariant ok <==> NoneFailed(statuses)
    {
      RunNext(tasks, order, statuses, i, work);
      var status := Step(tasks, statuses, order[i], work);
      statuses := statuses[order[i] := status];
      ok := ok && !status.Errored?;
      i := i + 1;
    }
    ScheduleCovers(tasks, order, statuses, work);
    RunSucceedsIffNoFailure(tasks, statuses, work);
  }

  /** Once every scheduled task is recorded, every task is. */
  lemma ScheduleCovers(tasks: map<string, Task>, order: seq<string>, statuses: map<string, Status>, work: Action -> Outcome)
    requires Closed(tasks) && IsSchedule(tasks, order) && Agrees(tasks, statuses, work)
    requires RecordedUpTo(order, statuses, |order|)
    ensures statuses.Keys == tasks.Keys
    ensures forall k :: k in tasks ==> statuses[k] == StatusOf(tasks, k, work)
  {
  }

  /** For the statuses of a complete run, no task failing and every task
      succeeding are the same. */
  lemma RunSucceedsIffNoFailure(tasks: map<string, Task>, statuses: map<string, Status>, work: Action -> Outcome)
    requires Closed(tasks) && statuses.Keys == tasks.Keys && Agrees(tasks, statuses, work)
    ensures (forall k :: k in tasks ==> !statuses[k].Errored?) <==> (forall k :: k in tasks ==> statuses[k].Succeeded?)
  {
    if forall k :: k in tasks ==> !statuses[k].Errored? {
      forall k | k in tasks
        ensures statuses[k].Succeeded?
      {
        NoFailureMeansSuccess(tasks, k, work);
      }
    }
  }

  /** The whole synchronisation: builds the task map from the expanded file
      list and runs it, reporting success exactly when every task succeeded.
      With no entries below the folder the run succeeds at once. */
  method WebdavSync(files: seq<string>, env: Env, order: seq<string>) returns (ok: bool)
    requires ExpandedUnderRoot(files, env.sep) && ParentsListed(files, env.sep)
    requires IsSchedule(Plan(files, env), order)
    ensures |files| <= 1 ==> ok
    ensures |files| > 0 ==> Closed(Plan(files, env))
    ensures |files| > 0 ==>
      (ok <==> forall k :: k in Plan(files, env) ==> StatusOf(Plan(files, env), k, Work(env)).Succeeded?)
  {
    var tasks := Plan(files, env);
    if |files| > 0 {
      PlanClosed(files, env);
    }
    var statuses;
    statuses, ok := Sync(tasks, order, Work(env));
  }
}
