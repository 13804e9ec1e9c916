/** What every interleaving of the syncer keeps, and why it always ends. */
module SyncSafety {
  import opened Text
  import opened SyncFiles
  import opened SyncProtocol

  // ---------------------------------------------------- the shape of a step

  /** The task an event belongs to. */
  function Who(e: Event): Option<nat> {
    if e.Count? || e.Enqueue? || e.Test? || e.Check? then None else Some(e.i)
  }

  /** The task an event hands to the pool. */
  function New(s: State, e: Event): Option<Task>
    requires Enabled(s, e)
  {
    match e
    case Enqueue => Some(Task(s.program[s.caller.k], Queued))
    case EnqueueChild(i) => Some(Task(Children(s.tasks[i].op)[s.tasks[i].phase.submitted], Queued))
    case _ => None
  }

  lemma StepShape(s: State, e: Event)
    requires Enabled(s, e)
    ensures Who(e).Some? ==> Who(e).value < |s.tasks| <= |Apply(s, e).tasks|
    ensures Who(e).Some? ==> Apply(s, e).tasks[Who(e).value].op == s.tasks[Who(e).value].op
    ensures Apply(s, e).program == s.program && Apply(s, e).workers == s.workers
    ensures Apply(s, e).tasks
            == (if Who(e).Some? then s.tasks[Who(e).value := Apply(s, e).tasks[Who(e).value]] else s.tasks)
                                 + (if New(s, e).Some? then [New(s, e).value] else [])
  {
    hide Mkdir, Copied, Removed, CanMkdir, CanCopy, CanLeave, Children;
  }

  lemma SumStep(f: Task -> nat, s: State, e: Event)
    requires Enabled(s, e)
    ensures Who(e).Some? ==> Who(e).value < |s.tasks| <= |Apply(s, e).tasks|
    ensures Sum(f, Apply(s, e).tasks) == Sum(f, s.tasks)
            + (if Who(e).Some? then f(Apply(s, e).tasks[Who(e).value]) - f(s.tasks[Who(e).value]) else 0)
            + (if New(s, e).Some? then f(New(s, e).value) else 0)
  {
    StepShape(s, e);
    hide Apply, Enabled, Sum;
    var t := Apply(s, e).tasks;
    var changed := if Who(e).Some? then s.tasks[Who(e).value := t[Who(e).value]] else s.tasks;
    if Who(e).Some? { SumUpdate(f, s.tasks, Who(e).value, t[Who(e).value]); }
    if New(s, e).Some? {
      SumAppend(f, changed, New(s, e).value);
    } else {
      assert changed + [] == changed;
    }
  }

  // ------------------------------------------------------------ preservation

  lemma StepWellFormed(s: State, e: Event)
    requires Enabled(s, e) && AllWellFormed(s.tasks)
    ensures AllWellFormed(Apply(s, e).tasks)
  {
    StepShape(s, e);
    ChangedWellFormed(s, e);
    var t := Apply(s, e).tasks;
    hide Apply, Enabled, Children;
    forall j | 0 <= j < |t| ensures WellFormed(t[j]) {
      if j == |s.tasks| {
        assert t[j] == New(s, e).value;
      } else if Who(e) != Some(j) {
        assert t[j] == s.tasks[j];
      }
    }
  }

  lemma ChangedWellFormed(s: State, e: Event)
    requires Enabled(s, e) && AllWellFormed(s.tasks)
    ensures Who(e).Some? ==> Who(e).value < |Apply(s, e).tasks| && WellFormed(Apply(s, e).tasks[Who(e).value])
    ensures New(s, e).Some? ==> WellFormed(New(s, e).value)
  {
    hide Mkdir, Copied, Removed, CanMkdir, CanCopy, CanLeave;
    if Who(e).Some? { assert WellFormed(s.tasks[Who(e).value]); }
  }

  lemma StepCounter(s: State, e: Event)
    requires Enabled(s, e) && CounterOk(s)
    ensures CounterOk(Apply(s, e))
  {
    SumStep(Held, s, e);
    hide Mkdir, Copied, Removed, CanMkdir, CanCopy, CanLeave, Children, Sum;
  }

  lemma StepErrors(s: State, e: Event)
    requires Enabled(s, e) && s.errors == Sum(Failure, s.tasks)
    ensures Apply(s, e).errors == Sum(Failure, Apply(s, e).tasks)
  {
    SumStep(Failure, s, e);
    hide Mkdir, Copied, Removed, CanMkdir, CanCopy, CanLeave, Children, Sum;
  }

  lemma StepCaller(s: State, e: Event)
    requires Enabled(s, e) && CounterOk(s) && CallerOk(s)
    ensures CallerOk(Apply(s, e))
  {
    hide Mkdir, Copied, Removed, CanMkdir, CanCopy, CanLeave, Children;
    if Who(e).Some? { SumAtLeast(Held, s.tasks, Who(e).value); }
  }

  lemma {:induction false} OpsUpdate(tasks: seq<Task>, i: nat, t: Task)
    requires i < |tasks| && t.op == tasks[i].op
    ensures Ops(tasks[i := t]) == Ops(tasks)
  {
    if i > 0 {
      OpsUpdate(tasks[1..], i - 1, t);
      assert tasks[i := t][1..] == tasks[1..][i - 1 := t];
    } else {
      assert tasks[i := t][1..] == tasks[1..];
    }
  }

  lemma {:induction false} OpsAppend(tasks: seq<Task>, t: Task)
    ensures Ops(tasks + [t]) == Ops(tasks) + multiset{t.op}
  {
    if tasks == [] {
      assert tasks + [t] == [t];
    } else {
      assert (tasks + [t])[1..] == tasks[1..] + [t];
      OpsAppend(tasks[1..], t);
    }
  }

  lemma {:induction false} OpsCount(tasks: seq<Task>)
    ensures |Ops(tasks)| == |tasks|
    ensures forall i :: 0 <= i < |tasks| ==> tasks[i].op in Ops(tasks)
  {
    if tasks != [] {
      OpsCount(tasks[1..]);
      assert forall i :: 1 <= i < |tasks| ==> tasks[i] == tasks[1..][i - 1];
    }
  }

  lemma OpsStep(s: State, e: Event)
    requires Enabled(s, e)
    ensures Ops(Apply(s, e).tasks)
            == Ops(s.tasks) + (if New(s, e).Some? then multiset{New(s, e).value.op} else multiset{})
  {
    StepShape(s, e);
    hide Apply, Enabled, Ops;
    var t := Apply(s, e).tasks;
    var changed := if Who(e).Some? then s.tasks[Who(e).value := t[Who(e).value]] else s.tasks;
    if Who(e).Some? { OpsUpdate(s.tasks, Who(e).value, t[Who(e).value]); }
    if New(s, e).Some? {
      OpsAppend(changed, New(s, e).value);
    } else {
      assert changed + [] == changed;
    }
  }

  lemma {:induction false} UnsubmittedUpdate(tasks: seq<Task>, i: nat, t: Task, given: multiset<Op>)
    requires AllWellFormed(tasks) && i < |tasks| && WellFormed(t) && AllWellFormed(tasks[i := t])
    requires Submitted(t.phase) <= |Children(t.op)| && Submitted(tasks[i].phase) <= |Children(tasks[i].op)|
    requires Unsubmitted(tasks[i]) == Unsubmitted(t) + given
    ensures AllUnsubmitted(tasks) == AllUnsubmitted(tasks[i := t]) + given
  {
    hide Unsubmitted, Children, WellFormed;
    assert AllWellFormed(tasks[1..]) && AllWellFormed(tasks[i := t][1..]);
    if i > 0 {
      assert tasks[i := t][1..] == tasks[1..][i - 1 := t];
      UnsubmittedUpdate(tasks[1..], i - 1, t, given);
    } else {
      assert tasks[i := t][1..] == tasks[1..];
    }
  }

  lemma {:induction false} UnsubmittedAppend(tasks: seq<Task>, t: Task)
    requires AllWellFormed(tasks) && t.phase.Queued? && AllWellFormed(tasks + [t])
    ensures AllUnsubmitted(tasks + [t]) == AllUnsubmitted(tasks) + ClosureAll(Children(t.op))
  {
    hide Children, WellFormed;
    if tasks == [] {
      assert tasks + [t] == [t];
      assert Children(t.op)[0..] == Children(t.op);
    } else {
      assert (tasks + [t])[1..] == tasks[1..] + [t];
      assert AllWellFormed(tasks[1..]) && AllWellFormed((tasks + [t])[1..]);
      UnsubmittedAppend(tasks[1..], t);
    }
  }

  lemma OwnSubmitted(s: State, e: Event)
    requires Enabled(s, e) && AllWellFormed(s.tasks) && Who(e).Some?
    ensures var i := Who(e).value;
            && i < |s.tasks| && i < |Apply(s, e).tasks| && Apply(s, e).tasks[i].op == s.tasks[i].op
            && Submitted(Apply(s, e).tasks[i].phase) == Submitted(s.tasks[i].phase) + if e.EnqueueChild? then 1 else 0
  {
    assert Who(e).value < |s.tasks| && WellFormed(s.tasks[Who(e).value]);
    hide Mkdir, Copied, Removed, CanMkdir, CanCopy, CanLeave, Children, Sum;
  }

  lemma ChildHanded(s: State, e: Event)
    requires Enabled(s, e) && e.EnqueueChild?
    ensures var t := s.tasks[e.i];
            Submitted(t.phase) < |Children(t.op)| && New(s, e) == Some(Task(Children(t.op)[Submitted(t.phase)], Queued))
  {
    hide Children;
  }

  /** What a task hands over: the closure of the child it puts in the pool. */
  lemma HandedOver(s: State, e: Event)
    requires Enabled(s, e) && AllWellFormed(s.tasks) && Who(e).Some? && Who(e).value < |Apply(s, e).tasks|
    requires WellFormed(Apply(s, e).tasks[Who(e).value])
    ensures var (t, u) := (s.tasks[Who(e).value], Apply(s, e).tasks[Who(e).value]);
            && Submitted(t.phase) <= |Children(t.op)| && Submitted(u.phase) <= |Children(u.op)|
            && Unsubmitted(t) == Unsubmitted(u) + if e.EnqueueChild? then Closure(New(s, e).value.op) else multiset{}
  {
    var i := Who(e).value;
    OwnSubmitted(s, e);
    assert WellFormed(s.tasks[i]);
    WellFormedSubmitted(s.tasks[i]);
    WellFormedSubmitted(Apply(s, e).tasks[i]);
    if e.EnqueueChild? { ChildHanded(s, e); }
    hide Apply, Enabled, New, Children, ClosureAll, Closure, WellFormed, Submitted;
    if e.EnqueueChild? { ClosureFrom(Children(s.tasks[i].op), Submitted(s.tasks[i].phase)); }
  }

  /** The tasks after a step, without the one it adds. */
  function Changed(s: State, e: Event): seq<Task>
    requires Enabled(s, e)
  {
    if Who(e).Some? && Who(e).value < |s.tasks| && Who(e).value < |Apply(s, e).tasks|
    then s.tasks[Who(e).value := Apply(s, e).tasks[Who(e).value]] else s.tasks
  }

  function Given(s: State, e: Event): multiset<Op>
    requires Enabled(s, e)
  {
    if e.EnqueueChild? && New(s, e).Some? then Closure(New(s, e).value.op) else multiset{}
  }

  lemma ChangedShape(s: State, e: Event)
    requires Enabled(s, e)
    ensures Apply(s, e).tasks == Changed(s, e) + (if New(s, e).Some? then [New(s, e).value] else [])
    ensures AllWellFormed(Apply(s, e).tasks) ==> AllWellFormed(Changed(s, e))
  {
    StepShape(s, e);
    hide Apply, Enabled, WellFormed, New;
    var t := Apply(s, e).tasks;
    assert forall j :: 0 <= j < |Changed(s, e)| ==> Changed(s, e)[j] == t[j];
  }

  lemma UnsubmittedChanged(s: State, e: Event)
    requires Enabled(s, e) && AllWellFormed(s.tasks) && AllWellFormed(Apply(s, e).tasks) && AllWellFormed(Changed(s, e))
    ensures AllUnsubmitted(s.tasks) == AllUnsubmitted(Changed(s, e)) + Given(s, e)
  {
    StepShape(s, e);
    hide Apply, Enabled, AllUnsubmitted, Unsubmitted, WellFormed, Children, New, Closure;
    if Who(e).Some? {
      var i := Who(e).value;
      assert WellFormed(Apply(s, e).tasks[i]);
      HandedOver(s, e);
      UnsubmittedUpdate(s.tasks, i, Apply(s, e).tasks[i], Given(s, e));
    }
  }

  lemma UnsubmittedStep(s: State, e: Event)
    requires Enabled(s, e) && AllWellFormed(s.tasks) && AllWellFormed(Apply(s, e).tasks)
    ensures AllUnsubmitted(Apply(s, e).tasks) + Given(s, e)
            == AllUnsubmitted(s.tasks) + if New(s, e).Some? then ClosureAll(Children(New(s, e).value.op))
                else multiset{}
  {
    ChangedShape(s, e);
    UnsubmittedChanged(s, e);
    assert New(s, e).Some? ==> New(s, e).value.phase.Queued? by { hide Children; }
    hide Apply, Enabled, AllUnsubmitted, AllWellFormed, Children, Changed, New, Given;
    if New(s, e).Some? {
      UnsubmittedAppend(Changed(s, e), New(s, e).value);
    } else {
      assert Changed(s, e) + [] == Changed(s, e);
    }
  }

  lemma CallerStep(s: State, e: Event)
    requires Enabled(s, e) && CallerOk(s)
    ensures CallerUnsubmitted(s) == CallerUnsubmitted(Apply(s, e)) + if e.Enqueue? then Closure(New(s, e).value.op)
            else multiset{}
  {
    hide Mkdir, Copied, Removed, CanMkdir, CanCopy, CanLeave, Children, Closure;
    if e.Enqueue? { ClosureFrom(s.program, s.caller.k); }
    if e.Test? { assert s.caller.Submitting? ==> s.program[s.caller.k..] == []; }
  }

  /** Only the caller and a scanning directory add tasks. */
  lemma NewIsGiven(s: State, e: Event)
    requires Enabled(s, e)
    ensures New(s, e).Some? <==> e.Enqueue? || e.EnqueueChild?
    ensures New(s, e).Some? ==>
              Closure(New(s, e).value.op) == multiset{New(s, e).value.op} + ClosureAll(Children(New(s, e).value.op))
  {
    hide Children, Closure, ClosureAll;
    if New(s, e).Some? { ClosureStep(New(s, e).value.op); }
  }

  lemma Balance(o: multiset<Op>, o': multiset<Op>, u: multiset<Op>, u': multiset<Op>, c: multiset<Op>, c': multiset<Op>,
                added: multiset<Op>, later: multiset<Op>, given: multiset<Op>, taken: multiset<Op>)
    requires o' == o + added && u' + given == u + later && c == c' + taken && added + later == given + taken
    ensures o' + u' + c' == o + u + c
  {
    forall x: Op ensures (o' + u' + c')[x] == (o + u + c)[x] {
      assert (u' + given)[x] == (u + later)[x] && (added + later)[x] == (given + taken)[x];
    }
  }

  lemma StepSpawn(s: State, e: Event)
    requires Enabled(s, e) && AllWellFormed(s.tasks) && AllWellFormed(Apply(s, e).tasks) && CallerOk(s) && SpawnOk(s)
    ensures SpawnOk(Apply(s, e))
  {
    StepShape(s, e);
    OpsStep(s, e);
    UnsubmittedStep(s, e);
    CallerStep(s, e);
    NewIsGiven(s, e);
    hide Apply, Enabled, Ops, AllUnsubmitted, CallerUnsubmitted, CallerOk, Closure, ClosureAll, AllWellFormed,
         Children, New;
    var s' := Apply(s, e);
    var added := if New(s, e).Some? then multiset{New(s, e).value.op} else multiset{};
    var later := if New(s, e).Some? then ClosureAll(Children(New(s, e).value.op)) else multiset{};
    var taken := if e.Enqueue? then Closure(New(s, e).value.op) else multiset{};
    assert added + later == Given(s, e) + taken;
    Balance(Ops(s.tasks), Ops(s'.tasks), AllUnsubmitted(s.tasks), AllUnsubmitted(s'.tasks), CallerUnsubmitted(s),
        CallerUnsubmitted(s'),
            added, later, Given(s, e), taken);
  }

  /** Every step keeps the invariant. */
  lemma StepOk(s: State, e: Event)
    requires Enabled(s, e) && Inv(s)
    ensures Inv(Apply(s, e))
  {
    hide Apply, Enabled, AllWellFormed, CounterOk, CallerOk, SpawnOk, Sum;
    StepWellFormed(s, e);
    StepCounter(s, e);
    StepErrors(s, e);
    StepCaller(s, e);
    StepSpawn(s, e);
  }

  // ------------------------------------------------------------------- runs

  /** The state after a schedule of events, if each is possible when it comes. */
  function After(s: State, events: seq<Event>): Option<State> {
    if events == [] then Some(s)
    else match After(s, events[..|events| - 1])
      case None => None
      case Some(t) => if Enabled(t, events[|events| - 1]) then Some(Apply(t, events[|events| - 1])) else None
  }

  function CallerSteps(c: Caller): nat {
    match c
    case Submitting(_, counted) => if counted then 3 else 4
    case Asleep => 3
    case Woken => 2
    case Checking => 1
    case _ => 0
  }

  function Measure(s: State): int {
    Sum(StepsLeft, s.tasks) + 7 * (|ClosureAll(s.program)| - |s.tasks|) + CallerSteps(s.caller)
  }

  lemma MeasureBounded(s: State)
    requires Inv(s)
    ensures Measure(s) >= 0
  {
    OpsCount(s.tasks);
    hide Ops, AllUnsubmitted, CallerUnsubmitted, ClosureAll, Sum, CounterOk, CallerOk, AllWellFormed;
    var rest := AllUnsubmitted(s.tasks) + CallerUnsubmitted(s);
    assert ClosureAll(s.program) == Ops(s.tasks) + rest;
  }

  /** Of a step's own task and caller; a task that is added brings five steps
      and takes seven off the count. */
  lemma OwnSteps(s: State, e: Event)
    requires CallerOk(s) && Enabled(s, e)
    ensures Who(e).Some? ==> Who(e).value < |s.tasks| <= |Apply(s, e).tasks|
    ensures (if Who(e).Some? then StepsLeft(Apply(s, e).tasks[Who(e).value]) - StepsLeft(s.tasks[Who(e).value]) else 0)
            + CallerSteps(Apply(s, e).caller) - CallerSteps(s.caller)
            + (if New(s, e).Some? then StepsLeft(New(s, e).value) - 7 else 0) < 0
  {
    hide Mkdir, Copied, Removed, CanMkdir, CanCopy, CanLeave, Children, Sum;
  }

  /** Every step uses up some of the measure. */
  lemma StepDecreases(s: State, e: Event)
    requires Inv(s) && Enabled(s, e)
    ensures Measure(Apply(s, e)) < Measure(s)
  {
    SumStep(StepsLeft, s, e);
    StepShape(s, e);
    OwnSteps(s, e);
    hide Apply, Enabled, New, Who, StepsLeft, CallerSteps, Sum, ClosureAll, Inv;
    assert |Apply(s, e).tasks| == |s.tasks| + if New(s, e).Some? then 1 else 0;
  }

  lemma {:induction false} RunsKeepInvariant(s: State, events: seq<Event>)
    requires Inv(s) && After(s, events).Some?
    ensures var t := After(s, events).value; Inv(t) && t.program == s.program && |events| + Measure(t) <= Measure(s)
  {
    hide Inv, Enabled, Apply, Measure;
    if events != [] {
      var front, e := events[..|events| - 1], events[|events| - 1];
      RunsKeepInvariant(s, front);
      var t := After(s, front).value;
      StepOk(t, e);
      StepDecreases(t, e);
      StepShape(t, e);
    }
  }

  lemma StartOk(program: seq<Op>, workers: nat, disk: Disk)
    ensures Inv(Start(program, workers, disk))
    ensures Measure(Start(program, workers, disk)) == 7 * |ClosureAll(program)| + 4
  {
    assert program[0..] == program;
    hide ClosureAll;
  }

  /** However the threads interleave and whatever fails, a call ends within a
      number of steps proportional to the files and folders it handles. */
  lemma StepsBoundedByTree(program: seq<Op>, workers: nat, disk: Disk, events: seq<Event>)
    requires After(Start(program, workers, disk), events).Some?
    ensures |events| <= 7 * |ClosureAll(program)| + 4
  {
    hide After, Measure, Inv, Start, ClosureAll;
    StartOk(program, workers, disk);
    RunsKeepInvariant(Start(program, workers, disk), events);
    MeasureBounded(After(Start(program, workers, disk), events).value);
  }

  ghost predicate Settled(s: State) {
    (s.caller.Raised? || s.caller.Returned?) && forall i :: 0 <= i < |s.tasks| ==> s.tasks[i].phase.Recorded?
  }

  lemma BusyMoves(s: State, i: nat)
    requires AllWellFormed(s.tasks) && i < |s.tasks| && Busy(s.tasks[i]) > 0
    ensures exists e :: Enabled(s, e)
  {
    assert WellFormed(s.tasks[i]);
    hide CanMkdir, CanLeave, Children;
    match s.tasks[i].phase {
      case Started =>
        CanLeaveAlone(s.disk, s.tasks[i].op);
        assert Enabled(s, Fail(i, s.disk));
      case Copying =>
        CanLeaveAlone(s.disk, s.tasks[i].op);
        assert Enabled(s, Fail(i, s.disk));
      case Scanning(k, counted) =>
        if counted { assert Enabled(s, EnqueueChild(i)); }
        else if k < |Children(s.tasks[i].op)| { assert Enabled(s, CountChild(i)); }
        else { assert Enabled(s, ScanDone(i)); }
      case Leaving(_, _) => assert Enabled(s, Finish(i));
      case Left(_, _) => assert Enabled(s, Record(i));
    }
  }

  lemma CallerMoves(s: State)
    requires CallerOk(s) && (s.caller.Submitting? || s.caller.Woken? || s.caller.Checking?)
    ensures exists e :: Enabled(s, e)
  {
    match s.caller {
      case Submitting(k, counted) =>
        if counted { assert Enabled(s, Enqueue); }
        else if k < |s.program| { assert Enabled(s, Count); }
        else { assert Enabled(s, Test); }
      case Woken => assert Enabled(s, Test);
      case Checking => assert Enabled(s, Check);
    }
  }

  /** No deadlock: until the call has ended and every task is done, some thread
      can move. In particular the caller never sleeps on a finished pool. */
  lemma SomeThreadMoves(s: State)
    requires Inv(s) && s.workers > 0 && !Settled(s)
    ensures exists e :: Enabled(s, e)
  {
    hide Enabled, WellFormed, SpawnOk;
    if s.caller.Submitting? || s.caller.Woken? || s.caller.Checking? {
      CallerMoves(s);
    } else if Sum(Busy, s.tasks) > 0 {
      SumPositive(Busy, s.tasks);
      var i :| 0 <= i < |s.tasks| && Busy(s.tasks[i]) > 0;
      BusyMoves(s, i);
    } else if i :| 0 <= i < |s.tasks| && s.tasks[i].phase.Queued? {
      assert Enabled(s, Begin(i)) by { QueuedStarts(s, i); }
    } else {
      forall i | 0 <= i < |s.tasks| ensures s.tasks[i].phase.Recorded? { SumAtLeast(Busy, s.tasks, i); }
      if Sum(Held, s.tasks) > 0 { SumPositive(Held, s.tasks); }
    }
  }

  lemma QueuedStarts(s: State, i: nat)
    requires i < |s.tasks| && s.tasks[i].phase.Queued? && Sum(Busy, s.tasks) < s.workers
    ensures Enabled(s, Begin(i))
  {
  }

  // ---------------------------------------------------------- when it passes

  ghost predicate Passed(s: State) {
    s.caller.Checking? || s.caller.Raised? || s.caller.Returned?
  }

  ghost predicate NoFailure(s: State) {
    forall i :: 0 <= i < |s.tasks| ==> !HasFailed(s.tasks[i].phase)
  }

  predicate HasFailed(p: Phase) {
    (p.Leaving? || p.Left? || p.Recorded?) && p.failed
  }

  lemma {:induction false} AllHandedOver(tasks: seq<Task>)
    requires AllWellFormed(tasks)
    requires forall i :: 0 <= i < |tasks| ==>
               (tasks[i].phase.Left? || tasks[i].phase.Recorded?) && !HasFailed(tasks[i].phase)
    ensures AllUnsubmitted(tasks) == multiset{}
  {
    hide Children;
    if tasks != [] {
      assert WellFormed(tasks[0]) && !HasFailed(tasks[0].phase);
      assert AllWellFormed(tasks[1..]);
      AllHandedOver(tasks[1..]);
      assert Children(tasks[0].op)[|Children(tasks[0].op)|..] == [];
    }
  }

  /** `_wait_for_completion` passes only after the whole tree of tasks has run:
      every task is past its work, and without failures each task of the
      program's closure ran exactly once. */
  lemma PassedAfterWholeTree(s: State)
    requires Inv(s) && Passed(s)
    ensures forall i :: 0 <= i < |s.tasks| ==> s.tasks[i].phase.Left? || s.tasks[i].phase.Recorded?
    ensures NoFailure(s) ==> Ops(s.tasks) == ClosureAll(s.program)
  {
    hide AllUnsubmitted, Ops, ClosureAll, WellFormed, HasFailed;
    forall i | 0 <= i < |s.tasks| ensures s.tasks[i].phase.Left? || s.tasks[i].phase.Recorded? {
      SumAtLeast(Held, s.tasks, i);
    }
    if NoFailure(s) { AllHandedOver(s.tasks); }
  }

  /** The check raises exactly when a failure has been recorded by then. */
  lemma RaisesIffRecorded(s: State)
    requires Inv(s) && s.caller.Checking?
    ensures Apply(s, Check).caller.Raised? <==>
              exists i :: 0 <= i < |s.tasks| && s.tasks[i].phase.Recorded? && s.tasks[i].phase.failed
  {
    hide SpawnOk, CounterOk;
    if s.errors > 0 { SumPositive(Failure, s.tasks); }
    if i :| 0 <= i < |s.tasks| && s.tasks[i].phase.Recorded? && s.tasks[i].phase.failed {
      SumAtLeast(Failure, s.tasks, i);
    }
  }

  /** An error is never invented. */
  lemma RaisedMeansFailed(s: State)
    requires Inv(s) && s.caller.Raised?
    ensures !NoFailure(s)
  {
    hide SpawnOk, CounterOk;
    SumPositive(Failure, s.tasks);
    var i :| 0 <= i < |s.tasks| && Failure(s.tasks[i]) > 0;
    assert HasFailed(s.tasks[i].phase);
  }

  /** The caller sleeps while the only task is about to run. */
  lemma OneTaskStarts(op: Op, workers: nat, disk: Disk) returns (run: seq<Event>)
    requires workers > 0
    ensures After(Start([op], workers, disk), run)
            == Some(State([op], workers, [Task(op, Started)], 1, 0, Asleep, disk))
  {
    var s0 := Start([op], workers, disk);
    var s1 := s0.(remaining := 1, caller := Submitting(0, true));
    var s2 := s1.(tasks := [Task(op, Queued)], caller := Submitting(1, false));
    var s3 := s2.(caller := Asleep);
    assert Sum(Busy, s3.tasks) == 0;
    AfterNothing(s0);
    hide After, Sum, Mkdir, Copied, Removed, CanMkdir, CanLeave, Children;
    run := Extend(s0, [], s0, Count, s1);
    run := Extend(s0, run, s1, Enqueue, s2);
    run := Extend(s0, run, s2, Test, s3);
    run := Extend(s0, run, s3, Begin(0), s3.(tasks := [Task(op, Started)]));
  }

  lemma OnlyTaskFails(s: State, run: seq<Event>, t: State, left: Disk) returns (longer: seq<Event>)
    requires After(s, run) == Some(t) && |t.tasks| == 1 && t.tasks[0].phase.Started? && t.remaining == 1
             && t.caller.Asleep?
    requires CanLeave(t.disk, left, t.tasks[0].op)
    ensures After(s, longer)
            == Some(t.(tasks := [Task(t.tasks[0].op, Left(true, 0))], remaining := 0, caller := Woken, disk := left))
  {
    hide After, Sum, Mkdir, Copied, Removed, CanMkdir, CanLeave, Children;
    var u := t.(tasks := [Task(t.tasks[0].op, Leaving(true, 0))], disk := left);
    longer := Extend(s, run, t, Fail(0, left), u);
    longer := Extend(s, longer, u, Finish(0),
        u.(tasks := [Task(t.tasks[0].op, Left(true, 0))], remaining := 0, caller := Woken));
  }

  lemma CallerReturns(s: State, run: seq<Event>, t: State) returns (longer: seq<Event>)
    requires After(s, run) == Some(t) && t.caller.Woken? && t.remaining == 0 && t.errors == 0
    ensures After(s, longer) == Some(t.(caller := Returned))
  {
    hide After, Sum, Mkdir, Copied, Removed, CanMkdir, CanLeave, Children;
    longer := Extend(s, run, t, Test, t.(caller := Checking));
    longer := Extend(s, longer, t.(caller := Checking), Check, t.(caller := Returned));
  }

  /** A failure can go unreported: the counter reaches zero before the callback
      that records the exception has run. */
  lemma FailureCanBeMissed(op: Op, workers: nat, disk: Disk) returns (run: seq<Event>, end: State)
    requires workers > 0
    ensures After(Start([op], workers, disk), run) == Some(end) && end.caller.Returned? && !NoFailure(end)
  {
    var s := Start([op], workers, disk);
    run := OneTaskStarts(op, workers, disk);
    var started := State([op], workers, [Task(op, Started)], 1, 0, Asleep, disk);
    var left := started.(tasks := [Task(op, Left(true, 0))], remaining := 0, caller := Woken);
    end := left.(caller := Returned);
    assert HasFailed(end.tasks[0].phase);
    hide *;
    CanLeaveAlone(disk, op);
    run := OnlyTaskFails(s, run, started, disk);
    run := CallerReturns(s, run, left);
  }

  /** Without tasks the caller returns at once. */
  lemma NothingRuns(workers: nat, disk: Disk) returns (run: seq<Event>)
    ensures After(Start([], workers, disk), run) == Some(State([], workers, [], 0, 0, Returned, disk))
  {
    var s := Start([], workers, disk);
    AfterNothing(s);
    hide After, Sum, Children;
    run := Extend(s, [], s, Test, s.(caller := Checking));
    run := Extend(s, run, s.(caller := Checking), Check, s.(caller := Returned));
  }

  lemma AfterNothing(s: State)
    ensures After(s, []) == Some(s)
  {
  }

  lemma Extend(s: State, front: seq<Event>, t: State, e: Event, u: State) returns (events: seq<Event>)
    requires After(s, front) == Some(t) && Enabled(t, e) && Apply(t, e) == u
    ensures After(s, events) == Some(u)
  {
    hide Enabled, Apply;
    events := front + [e];
    assert events[..|events| - 1] == front;
  }
}
