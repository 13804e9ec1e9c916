/** Runs of the syncer that exist for any program of file tasks: one task after the
    other, all done or all failed, and one in which every failure is missed. */
module SyncTurns {
  import opened Text
  import opened SyncFiles
  import opened SyncProtocol
  import opened SyncSafety
  import opened SyncErrors
  import opened SyncLeftovers

  /** The program's tasks, the first `n` of them in phase `p` and the others in `q`. */
  function Mixed(program: seq<Op>, n: nat, p: Phase, q: Phase): (tasks: seq<Task>)
    ensures |tasks| == |program|
  {
    seq(|program|, i requires 0 <= i < |program| => Task(program[i], if i < n then p else q))
  }

  lemma MixedNext(program: seq<Op>, n: nat, p: Phase, q: Phase)
    requires n < |program|
    ensures Mixed(program, n, p, q)[n] == Task(program[n], q)
    ensures SetPhase(Mixed(program, n, p, q), n, p) == Mixed(program, n + 1, p, q)
  {
  }

  lemma SetTwice(tasks: seq<Task>, i: nat, p: Phase, q: Phase)
    requires i < |tasks|
    ensures SetPhase(SetPhase(tasks, i, p), i, q) == SetPhase(tasks, i, q)
    ensures SetPhase(tasks, i, p)[i] == tasks[i].(phase := p)
  {
  }

  lemma BeginStep(s: State, i: nat)
    requires i < |s.tasks| && s.tasks[i].phase.Queued? && Sum(Busy, s.tasks) < s.workers
    ensures Enabled(s, Begin(i)) && Apply(s, Begin(i)) == s.(tasks := SetPhase(s.tasks, i, Started))
  {
  }

  lemma FailStep(s: State, i: nat, left: Disk)
    requires i < |s.tasks| && s.tasks[i].phase.Started? && CanLeave(s.disk, left, s.tasks[i].op)
    ensures Enabled(s, Fail(i, left))
            && Apply(s, Fail(i, left)) == s.(disk := left, tasks := SetPhase(s.tasks, i, Leaving(true, 0)))
  {
  }

  lemma FinishStep(s: State, i: nat, failed: bool)
    requires i < |s.tasks| && s.tasks[i].phase == Leaving(failed, 0)
    ensures Enabled(s, Finish(i))
    ensures Apply(s, Finish(i)) == s.(tasks := SetPhase(s.tasks, i, Left(failed, 0)), remaining := s.remaining - 1,
                                      caller := if s.remaining == 1 && s.caller.Asleep? then Woken else s.caller)
  {
  }

  lemma RecordStep(s: State, i: nat, failed: bool)
    requires i < |s.tasks| && s.tasks[i].phase == Left(failed, 0)
    ensures Enabled(s, Record(i))
    ensures Apply(s, Record(i))
            == s.(tasks := SetPhase(s.tasks, i, Recorded(failed, 0)), errors := if failed then s.errors + 1
                else s.errors)
  {
  }

  lemma {:induction false} MixedSum(f: Task -> nat, program: seq<Op>, n: nat, p: Phase, q: Phase)
    requires n <= |program| && (forall op :: f(Task(op, p)) == 1 && f(Task(op, q)) == 0)
    ensures Sum(f, Mixed(program, n, p, q)) == n
  {
    var tasks := Mixed(program, n, p, q);
    if program != [] {
      if n == 0 {
        assert tasks[1..] == Mixed(program[1..], 0, p, q);
        MixedSum(f, program[1..], 0, p, q);
      } else {
        assert tasks[1..] == Mixed(program[1..], n - 1, p, q);
        MixedSum(f, program[1..], n - 1, p, q);
      }
    }
  }

  /** All tasks in the pool, and the caller asleep. */
  function Waiting(program: seq<Op>, workers: nat, disk: Disk): State {
    State(program, workers, Mixed(program, 0, Queued, Queued), |program|, 0, Asleep, disk)
  }

  lemma {:induction false} Submits(program: seq<Op>, workers: nat, disk: Disk, k: nat) returns (run: seq<Event>)
    requires k <= |program|
    ensures After(Start(program, workers, disk), run) ==
            Some(State(program, workers, Mixed(program[..k], 0, Queued, Queued), k, 0, Submitting(k, false), disk))
  {
    var s := Start(program, workers, disk);
    if k == 0 {
      run := [];
      AfterNothing(s);
    } else {
      run := Submits(program, workers, disk, k - 1);
      var t := State(program, workers, Mixed(program[..k - 1], 0, Queued, Queued), k - 1, 0, Submitting(k - 1, false),
          disk);
      var u := t.(remaining := k, caller := Submitting(k - 1, true));
      assert Mixed(program[..k], 0, Queued, Queued) == t.tasks + [Task(program[k - 1], Queued)];
      hide After, Mixed, Sum, Mkdir, Copied, Removed, CanMkdir, CanCopy, CanLeave, Children;
      run := Extend(s, run, t, Count, u);
      run := Extend(s, run, u, Enqueue,
          u.(tasks := Mixed(program[..k], 0, Queued, Queued), caller := Submitting(k, false)));
    }
  }

  lemma Waits(program: seq<Op>, workers: nat, disk: Disk) returns (run: seq<Event>)
    requires program != []
    ensures After(Start(program, workers, disk), run) == Some(Waiting(program, workers, disk))
  {
    run := Submits(program, workers, disk, |program|);
    assert program[..|program|] == program;
    hide After, Mixed;
    var s := State(program, workers, Mixed(program, 0, Queued, Queued), |program|, 0, Submitting(|program|, false),
        disk);
    run := Extend(Start(program, workers, disk), run, s, Test, s.(caller := Asleep));
  }

  // ------------------------------------------------------- all failures missed

  /** A sweep of one kind of step over all tasks, which are in phase `q` before and `p`
      after it. */
  function Swept(program: seq<Op>, workers: nat, disk: Disk, n: nat, p: Phase, q: Phase, remaining: int,
                 caller: Caller): State {
    State(program, workers, Mixed(program, n, p, q), remaining, 0, caller, disk)
  }

  lemma {:induction false} AllBegin(program: seq<Op>, disk: Disk, n: nat) returns (run: seq<Event>)
    requires program != [] && n <= |program|
    ensures After(Start(program, |program|, disk), run)
            == Some(Swept(program, |program|, disk, n, Started, Queued, |program|, Asleep))
  {
    if n == 0 {
      run := Waits(program, |program|, disk);
      assert Mixed(program, 0, Queued, Queued) == Mixed(program, 0, Started, Queued);
    } else {
      run := AllBegin(program, disk, n - 1);
      MixedNext(program, n - 1, Started, Queued);
      MixedSum(Busy, program, n - 1, Started, Queued);
      BeginStep(Swept(program, |program|, disk, n - 1, Started, Queued, |program|, Asleep), n - 1);
      hide After, Mixed, Enabled, Apply, SetPhase;
      var s := Swept(program, |program|, disk, n - 1, Started, Queued, |program|, Asleep);
      run := Extend(Start(program, |program|, disk), run, s, Begin(n - 1),
          Swept(program, |program|, disk, n, Started, Queued, |program|, Asleep));
    }
  }

  lemma {:induction false} AllFail(program: seq<Op>, disk: Disk, n: nat) returns (run: seq<Event>)
    requires program != [] && n <= |program|
    ensures After(Start(program, |program|, disk), run) ==
            Some(Swept(program, |program|, disk, n, Leaving(true, 0), Started, |program|, Asleep))
  {
    if n == 0 {
      run := AllBegin(program, disk, |program|);
      assert Mixed(program, |program|, Started, Queued) == Mixed(program, 0, Leaving(true, 0), Started);
    } else {
      run := AllFail(program, disk, n - 1);
      MixedNext(program, n - 1, Leaving(true, 0), Started);
      CanLeaveAlone(disk, program[n - 1]);
      var s := Swept(program, |program|, disk, n - 1, Leaving(true, 0), Started, |program|, Asleep);
      FailStep(s, n - 1, disk);
      hide After, Mixed, Enabled, Apply, CanLeave, SetPhase;
      var t := Swept(program, |program|, disk, n, Leaving(true, 0), Started, |program|, Asleep);
      run := Extend(Start(program, |program|, disk), run, s, Fail(n - 1, disk), t);
    }
  }

  lemma {:induction false} AllFinish(program: seq<Op>, disk: Disk, n: nat) returns (run: seq<Event>)
    requires program != [] && n <= |program|
    ensures After(Start(program, |program|, disk), run) ==
            Some(Swept(program, |program|, disk, n, Left(true, 0), Leaving(true, 0), |program| - n,
                       if n < |program| then Asleep else Woken))
  {
    if n == 0 {
      run := AllFail(program, disk, |program|);
      assert Mixed(program, |program|, Leaving(true, 0), Started) == Mixed(program, 0, Left(true, 0), Leaving(true, 0));
    } else {
      run := AllFinish(program, disk, n - 1);
      MixedNext(program, n - 1, Left(true, 0), Leaving(true, 0));
      FinishStep(Swept(program, |program|, disk, n - 1, Left(true, 0), Leaving(true, 0), |program| - n + 1, Asleep),
          n - 1, true);
      hide After, Mixed, Enabled, Apply, SetPhase;
      var s := Swept(program, |program|, disk, n - 1, Left(true, 0), Leaving(true, 0), |program| - n + 1, Asleep);
      var t := Swept(program, |program|, disk, n, Left(true, 0), Leaving(true, 0), |program| - n,
                     if n < |program| then Asleep else Woken);
      run := Extend(Start(program, |program|, disk), run, s, Finish(n - 1), t);
    }
  }

  /** The bound on missed failures is reached: with as many threads as tasks there is a
      run in which every task fails and the call returns normally. */
  lemma AllCanBeMissed(program: seq<Op>, disk: Disk) returns (run: seq<Event>, end: State)
    ensures After(Start(program, |program|, disk), run) == Some(end) && end.caller.Returned?
            && Sum(Failed, end.tasks) == |program|
  {
    if program == [] {
      run := NothingRuns(0, disk);
      end := State([], 0, [], 0, 0, Returned, disk);
    } else {
      run := AllFinish(program, disk, |program|);
      MixedSum(Failed, program, |program|, Left(true, 0), Queued);
      assert Mixed(program, |program|, Left(true, 0), Leaving(true, 0))
             == Mixed(program, |program|, Left(true, 0), Queued);
      hide After, Mixed, Sum;
      var s := Swept(program, |program|, disk, |program|, Left(true, 0), Leaving(true, 0), 0, Woken);
      end := s.(caller := Returned);
      run := CallerReturns(Start(program, |program|, disk), run, s);
    }
  }

  // ---------------------------------------------------------- one after the other

  /** What a task makes of the disk, when it fails and when it does not. */
  predicate IsTurn(op: Op, before: Disk, after: Disk, fails: bool) {
    if fails then CanLeave(before, after, op)
    else
      && !op.CopyDir? && (op.CopyFile? ==>
           CanMkdir(before, Parent(op.dest)) && CanCopy(Mkdir(before, Parent(op.dest)), op))
      && after == OneResult(op, before)
  }

  /** The disk before each turn and after the last. */
  predicate AreTurns(program: seq<Op>, disks: seq<Disk>, fails: bool) {
    |disks| == |program| + 1 && forall i :: 0 <= i < |program| ==> IsTurn(program[i], disks[i], disks[i + 1], fails)
  }

  /** The first `n` tasks have had their turn. */
  function Turned(program: seq<Op>, workers: nat, disk: Disk, n: nat, fails: bool): State {
    State(program, workers, Mixed(program, n, Recorded(fails, 0), Queued), |program| - n, if fails then n else 0,
          if n < |program| then Asleep else Woken, disk)
  }

  lemma Turn(s: State, run: seq<Event>, program: seq<Op>, workers: nat, before: Disk, after: Disk, n: nat, fails: bool)
    returns (longer: seq<Event>)
    requires workers > 0 && n < |program| && After(s, run) == Some(Turned(program, workers, before, n, fails))
    requires IsTurn(program[n], before, after, fails)
    ensures After(s, longer) == Some(Turned(program, workers, after, n + 1, fails))
  {
    var t := Turned(program, workers, before, n, fails);
    MixedNext(program, n, Recorded(fails, 0), Queued);
    NoneBusy(program, n, fails);
    BeginStep(t, n);
    var begun := t.(tasks := SetPhase(t.tasks, n, Started));
    var worked := t.(tasks := SetPhase(t.tasks, n, Leaving(fails, 0)), disk := after);
    var caller := if n + 1 < |program| then Asleep else Woken;
    var left := worked.(tasks := SetPhase(t.tasks, n, Left(fails, 0)), remaining := |program| - n - 1,
        caller := caller);
    SetTwice(t.tasks, n, Started, Leaving(fails, 0));
    SetTwice(t.tasks, n, Leaving(fails, 0), Left(fails, 0));
    SetTwice(t.tasks, n, Left(fails, 0), Recorded(fails, 0));
    FinishStep(worked, n, fails);
    RecordStep(left, n, fails);
    hide After, Mixed, Enabled, Apply, IsTurn, SetPhase;
    longer := Extend(s, run, t, Begin(n), begun);
    longer := Works(s, longer, begun, n, after, fails);
    longer := Extend(s, longer, worked, Finish(n), left);
    longer := Extend(s, longer, left, Record(n), Turned(program, workers, after, n + 1, fails));
  }

  lemma NoneBusy(program: seq<Op>, n: nat, fails: bool)
    requires n <= |program|
    ensures Sum(Busy, Mixed(program, n, Recorded(fails, 0), Queued)) == 0
  {
    IdleSum(Mixed(program, n, Recorded(fails, 0), Queued));
  }

  lemma {:induction false} IdleSum(tasks: seq<Task>)
    requires forall i :: 0 <= i < |tasks| ==> Busy(tasks[i]) == 0
    ensures Sum(Busy, tasks) == 0
  {
    if tasks != [] { IdleSum(tasks[1..]); }
  }

  lemma Works(s: State, run: seq<Event>, t: State, n: nat, after: Disk, fails: bool) returns (longer: seq<Event>)
    requires After(s, run) == Some(t) && n < |t.tasks| && t.tasks[n].phase.Started?
             && IsTurn(t.tasks[n].op, t.disk, after, fails)
    ensures After(s, longer) == Some(t.(tasks := SetPhase(t.tasks, n, Leaving(fails, 0)), disk := after))
  {
    var op := t.tasks[n].op;
    var u := t.(tasks := SetPhase(t.tasks, n, Leaving(fails, 0)), disk := after);
    hide After, Sum, Mkdir, Copied, Removed, CanMkdir, CanCopy, CanLeave, Children;
    if fails {
      longer := Extend(s, run, t, Fail(n, after), u);
    } else if op.CopyFile? {
      var m := t.(tasks := SetPhase(t.tasks, n, Copying), disk := Mkdir(t.disk, Parent(op.dest)));
      assert SetPhase(m.tasks, n, Leaving(false, 0)) == u.tasks;
      longer := Extend(s, run, t, MakeFolders(n), m);
      longer := Extend(s, longer, m, Copy(n), u);
    } else {
      longer := Extend(s, run, t, Remove(n), u);
    }
  }

  lemma {:induction false} TakeTurns(program: seq<Op>, workers: nat, disks: seq<Disk>, n: nat, fails: bool)
    returns (run: seq<Event>)
    requires workers > 0 && program != [] && n <= |program| && AreTurns(program, disks, fails)
    ensures After(Start(program, workers, disks[0]), run) == Some(Turned(program, workers, disks[n], n, fails))
  {
    if n == 0 {
      run := Waits(program, workers, disks[0]);
      assert Mixed(program, 0, Queued, Queued) == Mixed(program, 0, Recorded(fails, 0), Queued);
    } else {
      run := TakeTurns(program, workers, disks, n - 1, fails);
      hide After, Mixed, IsTurn;
      run := Turn(Start(program, workers, disks[0]), run, program, workers, disks[n - 1], disks[n], n - 1, fails);
    }
  }

  /** A call whose tasks take turns returns, and without a failure, or raises. */
  lemma TurnsEnd(program: seq<Op>, workers: nat, disks: seq<Disk>, fails: bool) returns (run: seq<Event>, end: State)
    requires workers > 0 && AreTurns(program, disks, fails) && (fails ==> program != [])
    ensures After(Start(program, workers, disks[0]), run) == Some(end) && end.disk == disks[|program|]
    ensures if fails then end.caller.Raised? else end.caller.Returned? && NoFailure(end)
  {
    if program == [] {
      run := NothingRuns(workers, disks[0]);
      end := State([], workers, [], 0, 0, Returned, disks[0]);
    } else {
      run := TakeTurns(program, workers, disks, |program|, fails);
      var s := Turned(program, workers, disks[|program|], |program|, fails);
      end := s.(caller := if fails then Raised else Returned);
      assert !fails ==> NoFailure(end);
      hide After, Mixed, Sum, AreTurns, Mkdir, Copied, Removed, CanMkdir, CanCopy, CanLeave, Children;
      run := Extend(Start(program, workers, disks[0]), run, s, Test, s.(caller := Checking));
      run := Extend(Start(program, workers, disks[0]), run, s.(caller := Checking), Check, end);
    }
  }
}
