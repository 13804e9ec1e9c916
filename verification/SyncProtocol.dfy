/** The thread pool of DirectorySyncer as an interleaving of atomic steps of the
    calling thread and of the pool's threads. */
module SyncProtocol {
  import opened Text
  import opened SyncFiles

  /** `submitted` counts the child tasks handed to the pool so far; `counted`
      says the next child is in the counter but not in the pool yet. */
  datatype Phase =
    | Queued
    | Started
    | Copying
    | Scanning(submitted: nat, counted: bool)
    | Leaving(failed: bool, submitted: nat)
    | Left(failed: bool, submitted: nat)
    | Recorded(failed: bool, submitted: nat)

  datatype Task = Task(op: Op, phase: Phase)

  /** Where the calling thread is; Submitting all of them means about to wait. */
  datatype Caller = Submitting(k: nat, counted: bool) | Asleep | Woken | Checking | Raised | Returned

  datatype State = State(
    program: seq<Op>, workers: nat, tasks: seq<Task>, remaining: int, errors: nat, caller: Caller, disk: Disk)

  function Start(program: seq<Op>, workers: nat, disk: Disk): State {
    State(program, workers, [], 0, 0, Submitting(0, false), disk)
  }

  datatype Event =
    | Count | Enqueue | Test | Check
    | Begin(i: nat) | MakeFolders(i: nat) | Copy(i: nat) | Remove(i: nat)
    | CountChild(i: nat) | EnqueueChild(i: nat) | ScanDone(i: nat)
    | Fail(i: nat, left: Disk) | Finish(i: nat) | Record(i: nat)

  // ------------------------------------------------------------------- sums

  function Sum(f: Task -> nat, tasks: seq<Task>): nat {
    if tasks == [] then 0 else f(tasks[0]) + Sum(f, tasks[1..])
  }

  lemma {:induction false} SumUpdate(f: Task -> nat, tasks: seq<Task>, i: nat, t: Task)
    requires i < |tasks|
    ensures Sum(f, tasks[i := t]) == Sum(f, tasks) - f(tasks[i]) + f(t)
  {
    if i > 0 {
      SumUpdate(f, tasks[1..], i - 1, t);
      assert tasks[i := t][1..] == tasks[1..][i - 1 := t];
    } else {
      assert tasks[i := t][1..] == tasks[1..];
    }
  }

  lemma {:induction false} SumAppend(f: Task -> nat, tasks: seq<Task>, t: Task)
    ensures Sum(f, tasks + [t]) == Sum(f, tasks) + f(t)
  {
    if tasks == [] {
      assert tasks + [t] == [t];
    } else {
      assert (tasks + [t])[1..] == tasks[1..] + [t];
      SumAppend(f, tasks[1..], t);
    }
  }

  lemma {:induction false} SumAtLeast(f: Task -> nat, tasks: seq<Task>, i: nat)
    requires i < |tasks|
    ensures f(tasks[i]) <= Sum(f, tasks)
  {
    if i > 0 { SumAtLeast(f, tasks[1..], i - 1); }
  }

  lemma {:induction false} SumPositive(f: Task -> nat, tasks: seq<Task>)
    requires Sum(f, tasks) > 0
    ensures exists i :: 0 <= i < |tasks| && f(tasks[i]) > 0
  {
    if f(tasks[0]) == 0 {
      SumPositive(f, tasks[1..]);
      var i :| 0 <= i < |tasks[1..]| && f(tasks[1..][i]) > 0;
      assert tasks[i + 1] == tasks[1..][i];
    }
  }

  /** What a task holds of the counter: itself until `_task_finished`, and a
      child that is counted but not in the pool yet. */
  function Held(t: Task): nat {
    match t.phase
    case Scanning(_, counted) => if counted then 2 else 1
    case Left(_, _) => 0
    case Recorded(_, _) => 0
    case _ => 1
  }

  /** A task that a pool thread is occupied with. */
  function Busy(t: Task): nat {
    if t.phase.Queued? || t.phase.Recorded? then 0 else 1
  }

  function Failure(t: Task): nat {
    if t.phase.Recorded? && t.phase.failed then 1 else 0
  }

  /** An upper bound on the steps a task has left, not counting its children. */
  function StepsLeft(t: Task): nat {
    match t.phase
    case Queued => 5
    case Started => 4
    case Copying => 3
    case Scanning(_, counted) => if counted then 2 else 3
    case Leaving(_, _) => 2
    case Left(_, _) => 1
    case Recorded(_, _) => 0
  }

  // ------------------------------------------------------------------ steps

  predicate Enabled(s: State, e: Event) {
    match e
    case Count => s.caller.Submitting? && !s.caller.counted && s.caller.k < |s.program|
    case Enqueue => s.caller.Submitting? && s.caller.counted && s.caller.k < |s.program|
    case Test => s.caller.Woken? || s.caller == Submitting(|s.program|, false)
    case Check => s.caller.Checking?
    case Begin(i) => i < |s.tasks| && s.tasks[i].phase.Queued? && Sum(Busy, s.tasks) < s.workers
    case MakeFolders(i) =>
      && i < |s.tasks| && s.tasks[i].phase.Started? && !s.tasks[i].op.RemovePath?
      && CanMkdir(s.disk, if s.tasks[i].op.CopyDir? then s.tasks[i].op.dest else Parent(s.tasks[i].op.dest))
    case Copy(i) => i < |s.tasks| && s.tasks[i].phase.Copying? && s.tasks[i].op.CopyFile?
        && CanCopy(s.disk, s.tasks[i].op)
    case Remove(i) => i < |s.tasks| && s.tasks[i].phase.Started? && s.tasks[i].op.RemovePath?
    case CountChild(i) =>
      i < |s.tasks| && s.tasks[i].phase.Scanning? && !s.tasks[i].phase.counted
          && s.tasks[i].phase.submitted < |Children(s.tasks[i].op)|
    case EnqueueChild(i) =>
      i < |s.tasks| && s.tasks[i].phase.Scanning? && s.tasks[i].phase.counted
          && s.tasks[i].phase.submitted < |Children(s.tasks[i].op)|
    case ScanDone(i) =>
      i < |s.tasks| && s.tasks[i].phase == Scanning(|Children(s.tasks[i].op)|, false)
    case Fail(i, left) =>
      && i < |s.tasks| && CanLeave(s.disk, left, s.tasks[i].op)
      && (s.tasks[i].phase.Started? || s.tasks[i].phase.Copying?
           || (s.tasks[i].phase.Scanning? && !s.tasks[i].phase.counted))
    case Finish(i) => i < |s.tasks| && s.tasks[i].phase.Leaving?
    case Record(i) => i < |s.tasks| && s.tasks[i].phase.Left?
  }

  function SetPhase(tasks: seq<Task>, i: nat, phase: Phase): seq<Task>
    requires i < |tasks|
  {
    tasks[i := tasks[i].(phase := phase)]
  }

  function Submitted(phase: Phase): nat {
    if phase.Queued? || phase.Started? || phase.Copying? then 0 else phase.submitted
  }

  function Apply(s: State, e: Event): State
    requires Enabled(s, e)
  {
    match e
    case Count => s.(remaining := s.remaining + 1, caller := Submitting(s.caller.k, true))
    case Enqueue => s.(tasks := s.tasks + [Task(s.program[s.caller.k], Queued)],
        caller := Submitting(s.caller.k + 1, false))
    case Test => s.(caller := if s.remaining > 0 then Asleep else Checking)
    case Check => s.(caller := if s.errors > 0 then Raised else Returned)
    case Begin(i) => s.(tasks := SetPhase(s.tasks, i, Started))
    case MakeFolders(i) =>
      var op := s.tasks[i].op;
      if op.CopyDir? then s.(disk := Mkdir(s.disk, op.dest), tasks := SetPhase(s.tasks, i, Scanning(0, false)))
      else s.(disk := Mkdir(s.disk, Parent(op.dest)), tasks := SetPhase(s.tasks, i, Copying))
    case Copy(i) => s.(disk := Copied(s.disk, s.tasks[i].op), tasks := SetPhase(s.tasks, i, Leaving(false, 0)))
    case Remove(i) => s.(disk := Removed(s.disk, s.tasks[i].op.dest), tasks := SetPhase(s.tasks, i, Leaving(false, 0)))
    case CountChild(i) =>
      s.(remaining := s.remaining + 1, tasks := SetPhase(s.tasks, i, Scanning(s.tasks[i].phase.submitted, true)))
    case EnqueueChild(i) =>
      var k := s.tasks[i].phase.submitted;
      s.(tasks := SetPhase(s.tasks, i, Scanning(k + 1, false)) + [Task(Children(s.tasks[i].op)[k], Queued)])
    case ScanDone(i) => s.(tasks := SetPhase(s.tasks, i, Leaving(false, s.tasks[i].phase.submitted)))
    case Fail(i, left) =>
      s.(disk := left, tasks := SetPhase(s.tasks, i, Leaving(true, Submitted(s.tasks[i].phase))))
    case Finish(i) =>
      var p := s.tasks[i].phase;
      s.(tasks := SetPhase(s.tasks, i, Left(p.failed, p.submitted)), remaining := s.remaining - 1,
         caller := if s.remaining == 1 && s.caller.Asleep? then Woken else s.caller)
    case Record(i) =>
      var p := s.tasks[i].phase;
      s.(tasks := SetPhase(s.tasks, i, Recorded(p.failed, p.submitted)), errors := if p.failed then s.errors + 1
          else s.errors)
  }

  // -------------------------------------------------------------- invariant

  ghost predicate WellFormed(t: Task) {
    match t.phase
    case Queued => true
    case Started => true
    case Copying => t.op.CopyFile?
    case Scanning(k, counted) => t.op.CopyDir? && k <= |Children(t.op)| && (counted ==> k < |Children(t.op)|)
    case Leaving(failed, k) => k <= |Children(t.op)| && (!failed ==> k == |Children(t.op)|)
    case Left(failed, k) => k <= |Children(t.op)| && (!failed ==> k == |Children(t.op)|)
    case Recorded(failed, k) => k <= |Children(t.op)| && (!failed ==> k == |Children(t.op)|)
  }

  ghost predicate AllWellFormed(tasks: seq<Task>) {
    forall i :: 0 <= i < |tasks| ==> WellFormed(tasks[i])
  }

  /** The counter is the number of tasks counted and not yet past
      `_task_finished`. */
  ghost predicate CounterOk(s: State) {
    s.remaining == Sum(Held, s.tasks) + if s.caller.Submitting? && s.caller.counted then 1 else 0
  }

  /** No wakeup is lost, and the caller passes only at zero. */
  ghost predicate CallerOk(s: State) {
    && (s.caller.Submitting? ==> s.caller.k <= |s.program| && (s.caller.counted ==> s.caller.k < |s.program|))
    && (s.caller.Asleep? ==> s.remaining > 0)
    && (s.caller.Woken? || s.caller.Checking? || s.caller.Raised? || s.caller.Returned? ==> s.remaining == 0)
    && (s.caller.Raised? ==> s.errors > 0)
  }

  function Unsubmitted(t: Task): multiset<Op>
    requires Submitted(t.phase) <= |Children(t.op)|
  {
    ClosureAll(Children(t.op)[Submitted(t.phase)..])
  }

  lemma WellFormedSubmitted(t: Task)
    requires WellFormed(t)
    ensures Submitted(t.phase) <= |Children(t.op)|
  {
  }

  ghost function AllUnsubmitted(tasks: seq<Task>): multiset<Op>
    requires AllWellFormed(tasks)
  {
    if tasks == [] then multiset{}
    else
      WellFormedSubmitted(tasks[0]);
      assert AllWellFormed(tasks[1..]);
      Unsubmitted(tasks[0]) + AllUnsubmitted(tasks[1..])
  }

  function Ops(tasks: seq<Task>): multiset<Op> {
    if tasks == [] then multiset{} else multiset{tasks[0].op} + Ops(tasks[1..])
  }

  function CallerUnsubmitted(s: State): multiset<Op> {
    if s.caller.Submitting? && s.caller.k <= |s.program| then ClosureAll(s.program[s.caller.k..]) else multiset{}
  }

  /** Every task of the program's closure is in the pool or yet to be submitted,
      once: nothing is lost or submitted twice. */
  ghost predicate SpawnOk(s: State)
    requires AllWellFormed(s.tasks)
  {
    Ops(s.tasks) + AllUnsubmitted(s.tasks) + CallerUnsubmitted(s) == ClosureAll(s.program)
  }

  ghost predicate Inv(s: State) {
    AllWellFormed(s.tasks) && CounterOk(s) && CallerOk(s) && SpawnOk(s) && s.errors == Sum(Failure, s.tasks)
  }
}
