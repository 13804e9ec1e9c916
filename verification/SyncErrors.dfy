/** How many failures a call that returns normally can have missed. */
module SyncErrors {
  import opened Text
  import opened SyncFiles
  import opened SyncProtocol
  import opened SyncSafety

  function Failed(t: Task): nat {
    if HasFailed(t.phase) then 1 else 0
  }

  /** Occupied threads are bounded by the pool, and so are missed failures. */
  ghost predicate MissedOk(s: State) {
    Sum(Busy, s.tasks) <= s.workers && (s.caller.Returned? ==> Sum(Failed, s.tasks) <= s.workers)
  }

  lemma {:induction false} FailedAreBusy(tasks: seq<Task>)
    requires forall i :: 0 <= i < |tasks| ==> tasks[i].phase.Left? || tasks[i].phase.Recorded?
    ensures Sum(Failed, tasks) <= Sum(Busy, tasks) + Sum(Failure, tasks)
  {
    if tasks != [] {
      assert tasks[0].phase.Left? || tasks[0].phase.Recorded?;
      FailedAreBusy(tasks[1..]);
    }
  }

  lemma OwnBusy(s: State, e: Event)
    requires Enabled(s, e)
    ensures Who(e).Some? ==> Who(e).value < |s.tasks| <= |Apply(s, e).tasks|
    ensures Who(e).Some? && !e.Begin? ==> Busy(Apply(s, e).tasks[Who(e).value]) <= Busy(s.tasks[Who(e).value])
    ensures Who(e).Some? && !e.Fail? ==> Failed(Apply(s, e).tasks[Who(e).value]) <= Failed(s.tasks[Who(e).value])
    ensures New(s, e).Some? ==> Busy(New(s, e).value) == Failed(New(s, e).value) == 0
    ensures e.Begin? ==> Sum(Busy, s.tasks) < s.workers
    ensures Apply(s, e).caller.Returned? ==> s.caller.Returned? || (e.Check? && s.caller.Checking? && s.errors == 0)
  {
    hide Mkdir, Copied, Removed, CanMkdir, CanCopy, CanLeave, Children, Sum;
  }

  lemma StepKeepsMissed(s: State, e: Event)
    requires Inv(s) && MissedOk(s) && Enabled(s, e)
    ensures MissedOk(Apply(s, e))
  {
    StepShape(s, e);
    SumStep(Busy, s, e);
    SumStep(Failed, s, e);
    OwnBusy(s, e);
    if Passed(s) {
      PassedAfterWholeTree(s);
      FailedAreBusy(s.tasks);
      if Who(e).Some? {
        assert s.tasks[Who(e).value].phase.Left? || s.tasks[Who(e).value].phase.Recorded?;
        NoFailWhenPast(s, e);
      }
    }
    assert Inv(s) ==> s.errors == Sum(Failure, s.tasks);
    hide Apply, Enabled, Sum, New, Who, Busy, Failed, Inv;
  }

  lemma NoFailWhenPast(s: State, e: Event)
    requires Enabled(s, e) && Who(e).Some? && Who(e).value < |s.tasks|
    requires s.tasks[Who(e).value].phase.Left? || s.tasks[Who(e).value].phase.Recorded?
    ensures !e.Fail?
  {
  }

  lemma {:induction false} RunsKeepMissed(s: State, events: seq<Event>)
    requires Inv(s) && MissedOk(s) && After(s, events).Some?
    ensures Inv(After(s, events).value) && MissedOk(After(s, events).value)
    ensures After(s, events).value.workers == s.workers
  {
    RunsKeepInvariant(s, events);
    hide Inv, Enabled, Apply, MissedOk;
    if events != [] {
      var front, e := events[..|events| - 1], events[|events| - 1];
      RunsKeepMissed(s, front);
      StepKeepsMissed(After(s, front).value, e);
      StepShape(After(s, front).value, e);
    }
  }

  /** Whatever the program and the interleaving, a call that returns has missed at
      most as many failures as the pool has threads. */
  lemma MissedAreBounded(program: seq<Op>, workers: nat, disk: Disk, events: seq<Event>)
    requires After(Start(program, workers, disk), events).Some?
    ensures var end := After(Start(program, workers, disk), events).value;
            end.caller.Returned? ==> Sum(Failed, end.tasks) <= workers
  {
    StartOk(program, workers, disk);
    assert MissedOk(Start(program, workers, disk));
    hide Inv, After, Start, Sum;
    RunsKeepMissed(Start(program, workers, disk), events);
  }

  /** An error that has been recorded stays so, and keeps the call from returning. */
  ghost predicate WillRaise(s: State) {
    s.errors > 0 && !s.caller.Returned?
  }

  lemma {:induction false} RaisesInTheEnd(s: State, events: seq<Event>)
    requires WillRaise(s) && After(s, events).Some?
    ensures WillRaise(After(s, events).value)
  {
    if events != [] {
      var front, e := events[..|events| - 1], events[|events| - 1];
      RaisesInTheEnd(s, front);
      hide Enabled, Apply, After;
      KeepsRaising(After(s, front).value, e);
    }
  }

  lemma KeepsRaising(s: State, e: Event)
    requires WillRaise(s) && Enabled(s, e)
    ensures WillRaise(Apply(s, e))
  {
    hide Mkdir, Copied, Removed, CanMkdir, CanCopy, CanLeave, Children, Sum;
  }

  lemma {:induction false} AfterConcat(s: State, a: seq<Event>, b: seq<Event>)
    requires After(s, a + b).Some?
    ensures After(s, a).Some? && After(After(s, a).value, b) == After(s, a + b)
  {
    hide Enabled, Apply;
    if b == [] {
      assert a + b == a;
    } else {
      assert (a + b)[..|a + b| - 1] == a + b[..|b| - 1];
      AfterConcat(s, a, b[..|b| - 1]);
    }
  }

  /** With one thread only the last task to begin can have its failure missed: once
      a task has failed and another begins after it, the call cannot return. */
  lemma OneWorkerReports(program: seq<Op>, disk: Disk, front: seq<Event>, i: nat, rest: seq<Event>, j: nat)
    requires After(Start(program, 1, disk), front + [Begin(i)] + rest).Some?
    requires After(Start(program, 1, disk), front).Some?
    requires var s := After(Start(program, 1, disk), front).value; j < |s.tasks| && HasFailed(s.tasks[j].phase)
    ensures !After(Start(program, 1, disk), front + [Begin(i)] + rest).value.caller.Returned?
  {
    var start := Start(program, 1, disk);
    StartOk(program, 1, disk);
    assert MissedOk(start) && start.workers == 1;
    hide After, Start, Inv, Enabled, HasFailed, MissedOk;
    AfterConcat(start, front + [Begin(i)], rest);
    AfterConcat(start, front, [Begin(i)]);
    var s := After(start, front).value;
    RunsKeepMissed(start, front);
    OneStep(s, Begin(i));
    BeginsAfterFailure(s, i, j);
    hide WillRaise;
    var t := After(start, front + [Begin(i)]).value;
    RaisesInTheEnd(s, [Begin(i)]);
    RaisesInTheEnd(t, rest);
    StillOpen(After(t, rest).value);
  }

  lemma OneStep(s: State, e: Event)
    ensures After(s, [e]).Some? ==> Enabled(s, e)
  {
    hide Enabled, Apply;
    assert [e][..|[e]| - 1] == [] && After(s, []) == Some(s);
  }

  /** The one thread begins a task only when the failed one has been recorded. */
  lemma BeginsAfterFailure(s: State, i: nat, j: nat)
    requires Inv(s) && s.workers == 1 && Enabled(s, Begin(i)) && j < |s.tasks| && HasFailed(s.tasks[j].phase)
    ensures WillRaise(s)
  {
    hide Inv, Enabled, Sum;
    BeginNeedsIdle(s, i);
    SumAtLeast(Busy, s.tasks, j);
    SumAtLeast(Failure, s.tasks, j);
    QueuedIsCounted(s, i);
    ErrorsAreSum(s);
  }

  lemma BeginNeedsIdle(s: State, i: nat)
    requires Enabled(s, Begin(i))
    ensures i < |s.tasks| && s.tasks[i].phase.Queued? && Sum(Busy, s.tasks) < s.workers
  {
    hide Sum;
  }

  lemma ErrorsAreSum(s: State)
    requires Inv(s)
    ensures s.errors == Sum(Failure, s.tasks)
  {
    hide SpawnOk, CounterOk, CallerOk, AllWellFormed, Sum;
  }

  lemma StillOpen(s: State)
    requires WillRaise(s)
    ensures !s.caller.Returned?
  {
  }

  lemma QueuedIsCounted(s: State, i: nat)
    requires Inv(s) && i < |s.tasks| && s.tasks[i].phase.Queued?
    ensures s.remaining > 0 && !s.caller.Returned?
  {
    SumAtLeast(Held, s.tasks, i);
    hide SpawnOk;
  }
}
