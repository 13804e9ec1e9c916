/** What a call without failures leaves on disk, whatever the interleaving. */
module SyncResult {
  import opened Text
  import opened SyncFiles
  import opened SyncProtocol
  import opened SyncSafety

  /** What a task makes of its path. */
  function Intent(op: Op): Option<Item> {
    match op
    case RemovePath(_) => None
    case CopyFile(content, _, _) => Some(Plain(content, true))
    case CopyDir(_, _) => Some(Folder)
  }

  ghost predicate IsTarget(ops: multiset<Op>, q: Path) {
    exists op :: op in ops && op.dest == q
  }

  ghost predicate IsAbove(ops: multiset<Op>, q: Path) {
    exists op :: op in ops && !op.RemovePath? && q < op.dest
  }

  /** The final content of a path: what the task on it intends, a folder where
      only a copy below needs one, and otherwise what was there. */
  ghost function FinalAt(before: Disk, ops: multiset<Op>, q: Path): Option<Item> {
    if IsTarget(ops, q) then
      var op :| op in ops && op.dest == q;
      Intent(op)
    else if q !in before && IsAbove(ops, q) then Some(Folder)
    else Look(before, q)
  }

  /** Tasks agree on shared paths, files are not copied below files or removed
      paths, and no file task meets a folder. */
  ghost predicate Compatible(before: Disk, ops: multiset<Op>) {
    && (forall a, b :: a in ops && b in ops && a.dest == b.dest ==> Intent(a) == Intent(b))
    && (forall a, b :: a in ops && b in ops && !b.RemovePath? && a.dest < b.dest ==> a.CopyDir?)
    && (forall a :: a in ops && !a.CopyDir? ==> a.dest != [] && Look(before, a.dest) != Some(Folder))
  }

  lemma FinalAtTarget(before: Disk, ops: multiset<Op>, op: Op)
    requires Compatible(before, ops) && op in ops
    ensures FinalAt(before, ops, op.dest) == Intent(op)
  {
    assert IsTarget(ops, op.dest);
  }

  /** Above a copied path there is a folder at the end, unless a file was there. */
  lemma FinalAbove(before: Disk, ops: multiset<Op>, op: Op, q: Path)
    requires Compatible(before, ops) && op in ops && !op.RemovePath? && q < op.dest
    ensures FinalAt(before, ops, q) == Some(Folder)
            || (!IsTarget(ops, q) && q in before && FinalAt(before, ops, q) == Look(before, q))
  {
    assert IsAbove(ops, q);
    if IsTarget(ops, q) {
      var a :| a in ops && a.dest == q;
      FinalAtTarget(before, ops, a);
    }
  }

  /** Whether a task has brought `q` to its final content. */
  predicate Settles(t: Task, q: Path) {
    var past := t.phase.Leaving? || t.phase.Left? || t.phase.Recorded?;
    match t.op
    case RemovePath(dest) => past && q == dest
    case CopyFile(_, _, dest) => (past && q <= dest) || (t.phase.Copying? && q < dest)
    case CopyDir(_, dest) => (past || t.phase.Scanning?) && q <= dest
  }

  ghost predicate Between(before: Disk, ops: multiset<Op>, d: Disk) {
    forall q :: Look(d, q) == Look(before, q) || Look(d, q) == FinalAt(before, ops, q)
  }

  ghost predicate AllSettled(before: Disk, ops: multiset<Op>, s: State) {
    forall i, q :: 0 <= i < |s.tasks| && Settles(s.tasks[i], q) ==> Look(s.disk, q) == FinalAt(before, ops, q)
  }

  ghost predicate OpsKnown(ops: multiset<Op>, tasks: seq<Task>) {
    forall i :: 0 <= i < |tasks| ==> tasks[i].op in ops
  }

  ghost predicate DiskOk(before: Disk, s: State) {
    var ops := ClosureAll(s.program);
    NoFailure(s) ==> Between(before, ops, s.disk) && AllSettled(before, ops, s)
  }

  /** An operation only brings paths to their final content. */
  ghost predicate Moves(before: Disk, ops: multiset<Op>, d: Disk, d': Disk) {
    forall q :: Look(d', q) == Look(d, q) || Look(d', q) == FinalAt(before, ops, q)
  }

  lemma MkdirMoves(before: Disk, ops: multiset<Op>, d: Disk, op: Op, p: Path)
    requires Compatible(before, ops) && Between(before, ops, d) && op in ops && !op.RemovePath?
    requires (p == op.dest && op.CopyDir?) || p < op.dest
    requires CanMkdir(d, p)
    ensures Moves(before, ops, d, Mkdir(d, p))
    ensures forall q :: q <= p ==> Look(Mkdir(d, p), q) == FinalAt(before, ops, q)
  {
    hide Mkdir, Compatible, FinalAt, Intent;
    forall q | q <= p ensures FinalAt(before, ops, q) == Some(Folder) {
      if q == op.dest {
        FinalAtTarget(before, ops, op);
        assert Intent(op) == Some(Folder) by { IntentOfDir(op); }
      } else {
        FinalAbove(before, ops, op, q);
        assert q in Prefixes(p);
        if q in before { assert Look(d, q) == Look(before, q) || Look(d, q) == FinalAt(before, ops, q); }
      }
    }
  }

  lemma IntentOfDir(op: Op)
    requires op.CopyDir?
    ensures Intent(op) == Some(Folder)
  {
  }

  lemma NoFolderAt(before: Disk, ops: multiset<Op>, d: Disk, op: Op)
    requires Compatible(before, ops) && Between(before, ops, d) && op in ops && !op.CopyDir?
    ensures Look(d, op.dest) != Some(Folder) && FinalAt(before, ops, op.dest) == Intent(op)
  {
    FinalAtTarget(before, ops, op);
    hide FinalAt;
    assert Look(d, op.dest) == Look(before, op.dest) || Look(d, op.dest) == FinalAt(before, ops, op.dest);
  }

  lemma FileOpMoves(before: Disk, ops: multiset<Op>, d: Disk, op: Op)
    requires Compatible(before, ops) && Between(before, ops, d) && op in ops && !op.CopyDir?
    ensures var d' := if op.CopyFile? then Copied(d, op) else Removed(d, op.dest);
            Moves(before, ops, d, d') && Look(d', op.dest) == FinalAt(before, ops, op.dest)
  {
    NoFolderAt(before, ops, d, op);
    hide Compatible, Between, FinalAt;
  }

  lemma MovesKeepsBetween(before: Disk, ops: multiset<Op>, d: Disk, d': Disk)
    requires Between(before, ops, d) && Moves(before, ops, d, d')
    ensures Between(before, ops, d')
  {
    hide FinalAt;
    forall q ensures Look(d', q) == Look(before, q) || Look(d', q) == FinalAt(before, ops, q) {
      assert Look(d', q) == Look(d, q) || Look(d', q) == FinalAt(before, ops, q);
      assert Look(d, q) == Look(before, q) || Look(d, q) == FinalAt(before, ops, q);
    }
  }

  lemma OpsAreKnown(s: State)
    requires Inv(s)
    ensures OpsKnown(ClosureAll(s.program), s.tasks)
  {
    OpsCount(s.tasks);
    hide AllUnsubmitted, CallerUnsubmitted, ClosureAll, Ops;
  }

  lemma PrefixOfParent(q: Path, p: Path)
    requires p != []
    ensures Parent(p) < p && (q < p <==> q <= Parent(p)) && (q <= p && !(q < p) <==> q == p)
  {
    if q < p { assert q == p[..|q|] == Parent(p)[..|q|]; }
  }

  /** The paths that an event brings to their final content. */
  ghost predicate NewlySettled(before: Disk, ops: multiset<Op>, t: Task, t': Task, d: Disk) {
    forall q :: Settles(t', q) && !Settles(t, q) ==> Look(d, q) == FinalAt(before, ops, q)
  }

  lemma FoldersMade(before: Disk, ops: multiset<Op>, d: Disk, t: Task, t': Task)
    requires Compatible(before, ops) && Between(before, ops, d) && t.op in ops && !t.op.RemovePath? && t.phase.Started?
    requires t' == t.(phase := if t.op.CopyDir? then Scanning(0, false) else Copying)
    requires CanMkdir(d, if t.op.CopyDir? then t.op.dest else Parent(t.op.dest))
    ensures var d' := Mkdir(d, if t.op.CopyDir? then t.op.dest else Parent(t.op.dest));
            Moves(before, ops, d, d') && NewlySettled(before, ops, t, t', d')
  {
    var dest := t.op.dest;
    var p := if t.op.CopyDir? then dest else Parent(dest);
    assert t.op.CopyDir? || dest != [];
    hide Compatible, Between, FinalAt, Mkdir, CanMkdir, CanLeave, Look;
    if t.op.CopyFile? { PrefixOfParent([], dest); }
    MkdirMoves(before, ops, d, t.op, p);
    forall q | Settles(t', q) && !Settles(t, q) ensures Look(Mkdir(d, p), q) == FinalAt(before, ops, q) {
      if t.op.CopyFile? { PrefixOfParent(q, dest); }
    }
  }

  lemma FileDone(before: Disk, ops: multiset<Op>, d: Disk, t: Task, t': Task)
    requires Compatible(before, ops) && Between(before, ops, d) && t.op in ops && !t.op.CopyDir?
    requires t.phase == if t.op.CopyFile? then Copying else Started
    requires t' == t.(phase := Leaving(false, 0))
    ensures var d' := if t.op.CopyFile? then Copied(d, t.op) else Removed(d, t.op.dest);
            Moves(before, ops, d, d') && NewlySettled(before, ops, t, t', d')
  {
    assert t.op.dest != [];
    FileOpMoves(before, ops, d, t.op);
    hide Compatible, Between, FinalAt, Copied, Removed, Look;
    forall q | Settles(t', q) && !Settles(t, q) ensures q == t.op.dest { PrefixOfParent(q, t.op.dest); }
  }

  lemma SameSettled(before: Disk, ops: multiset<Op>, t: Task, t': Task, d: Disk)
    requires t'.op == t.op && forall q :: Settles(t', q) ==> Settles(t, q)
    ensures NewlySettled(before, ops, t, t', d)
  {
  }

  /** What an event does to the disk, when nothing fails. */
  lemma EventMoves(before: Disk, s: State, e: Event)
    requires Enabled(s, e) && !e.Fail? && AllWellFormed(s.tasks)
    requires Compatible(before, ClosureAll(s.program)) && OpsKnown(ClosureAll(s.program), s.tasks)
             && Between(before, ClosureAll(s.program), s.disk)
    ensures Moves(before, ClosureAll(s.program), s.disk, Apply(s, e).disk)
    ensures Who(e).Some? ==> Who(e).value < |s.tasks| <= |Apply(s, e).tasks|
    ensures Who(e).Some? ==>
              NewlySettled(before, ClosureAll(s.program), s.tasks[Who(e).value], Apply(s, e).tasks[Who(e).value],
                  Apply(s, e).disk)
  {
    var ops := ClosureAll(s.program);
    hide ClosureAll, Compatible, Between, CanMkdir, CanCopy, CanLeave, Copied, Removed, Mkdir, FinalAt, Children,
         NewlySettled;
    if Who(e).Some? { assert WellFormed(s.tasks[Who(e).value]); }
    if e.MakeFolders? {
      FoldersMade(before, ops, s.disk, s.tasks[e.i], Apply(s, e).tasks[e.i]);
    } else if e.Copy? || e.Remove? {
      FileDone(before, ops, s.disk, s.tasks[e.i], Apply(s, e).tasks[e.i]);
    } else if Who(e).Some? {
      SameSettled(before, ops, s.tasks[Who(e).value], Apply(s, e).tasks[Who(e).value], s.disk);
    }
  }

  lemma StepNoFailure(s: State, e: Event)
    requires Enabled(s, e) && NoFailure(Apply(s, e))
    ensures NoFailure(s) && !e.Fail?
  {
    StepShape(s, e);
    var t := Apply(s, e).tasks;
    if Who(e).Some? { assert !HasFailed(t[Who(e).value].phase); }
    forall j | 0 <= j < |s.tasks| ensures !HasFailed(s.tasks[j].phase) {
      assert !HasFailed(t[j].phase);
    }
  }

  lemma SettledKept(before: Disk, ops: multiset<Op>, s: State, s': State, who: Option<nat>)
    requires AllSettled(before, ops, s) && Moves(before, ops, s.disk, s'.disk) && |s.tasks| <= |s'.tasks|
    requires forall j :: 0 <= j < |s'.tasks| ==>
               (j < |s.tasks| && s'.tasks[j] == s.tasks[j]) || who == Some(j) || s'.tasks[j].phase.Queued?
    requires who.Some? ==>
               who.value < |s.tasks| && NewlySettled(before, ops, s.tasks[who.value], s'.tasks[who.value], s'.disk)
    ensures AllSettled(before, ops, s')
  {
    hide FinalAt, Look;
    forall j, q | 0 <= j < |s'.tasks| && Settles(s'.tasks[j], q) ensures Look(s'.disk, q) == FinalAt(before, ops, q) {
      if j < |s.tasks| && Settles(s.tasks[j], q) {
        assert Look(s.disk, q) == FinalAt(before, ops, q);
        assert Look(s'.disk, q) == Look(s.disk, q) || Look(s'.disk, q) == FinalAt(before, ops, q);
      }
    }
  }

  lemma StepSettled(before: Disk, s: State, e: Event)
    requires Enabled(s, e) && !e.Fail? && AllSettled(before, ClosureAll(s.program), s)
    requires Moves(before, ClosureAll(s.program), s.disk, Apply(s, e).disk)
    requires Who(e).Some? ==> Who(e).value < |s.tasks| <= |Apply(s, e).tasks|
    requires Who(e).Some? ==>
               NewlySettled(before, ClosureAll(s.program), s.tasks[Who(e).value], Apply(s, e).tasks[Who(e).value],
                   Apply(s, e).disk)
    ensures AllSettled(before, ClosureAll(s.program), Apply(s, e))
  {
    StepShape(s, e);
    assert New(s, e).Some? ==> New(s, e).value.phase.Queued? by { hide Children; }
    hide Apply, Enabled, FinalAt, New, AllSettled, Moves, NewlySettled, ClosureAll;
    SettledKept(before, ClosureAll(s.program), s, Apply(s, e), Who(e));
  }

  lemma StepDiskOk(before: Disk, s: State, e: Event)
    requires Enabled(s, e) && Inv(s) && DiskOk(before, s) && Compatible(before, ClosureAll(s.program))
    ensures DiskOk(before, Apply(s, e))
  {
    hide Enabled, Apply, Compatible, Between, AllSettled, Moves, ClosureAll, Settles, FinalAt, SpawnOk, CounterOk,
         CallerOk, NoFailure, AllWellFormed;
    StepShape(s, e);
    if NoFailure(Apply(s, e)) {
      StepNoFailure(s, e);
      OpsAreKnown(s);
      EventMoves(before, s, e);
      MovesKeepsBetween(before, ClosureAll(s.program), s.disk, Apply(s, e).disk);
      StepSettled(before, s, e);
    }
  }

  lemma {:induction false} RunsKeepDisk(program: seq<Op>, workers: nat, before: Disk, events: seq<Event>)
    requires Compatible(before, ClosureAll(program)) && After(Start(program, workers, before), events).Some?
    ensures DiskOk(before, After(Start(program, workers, before), events).value)
  {
    hide Compatible, Enabled, Apply, ClosureAll, Inv, Measure;
    var s := Start(program, workers, before);
    if events == [] {
      hide FinalAt;
    } else {
      hide DiskOk, Start;
      var front := events[..|events| - 1];
      RunsKeepDisk(program, workers, before, front);
      StartOk(program, workers, before);
      RunsKeepInvariant(s, front);
      assert s.program == program by { ProgramOfStart(program, workers, before); }
      StepDiskOk(before, After(s, front).value, events[|events| - 1]);
    }
  }

  lemma ProgramOfStart(program: seq<Op>, workers: nat, before: Disk)
    ensures Start(program, workers, before).program == program
  {
  }

  lemma {:induction false} SomeTaskHas(tasks: seq<Task>, op: Op)
    requires op in Ops(tasks)
    ensures exists i :: 0 <= i < |tasks| && tasks[i].op == op
  {
    if tasks[0].op != op {
      SomeTaskHas(tasks[1..], op);
      var i :| 0 <= i < |tasks[1..]| && tasks[1..][i].op == op;
      assert tasks[i + 1].op == op;
    }
  }

  lemma PassedIsFinal(before: Disk, s: State, q: Path)
    requires Inv(s) && Passed(s) && NoFailure(s) && DiskOk(before, s)
    ensures Look(s.disk, q) == FinalAt(before, ClosureAll(s.program), q)
  {
    PassedAfterWholeTree(s);
    var ops := ClosureAll(s.program);
    assert Between(before, ops, s.disk) && AllSettled(before, ops, s);
    assert Look(s.disk, q) == Look(before, q) || Look(s.disk, q) == FinalAt(before, ops, q);
    hide ClosureAll, Ops, Inv, NoFailure, DiskOk, Passed, Look, Between, AllSettled;
    if op :| op in ops && (op.dest == q || (!op.RemovePath? && q < op.dest)) {
      SomeTaskHas(s.tasks, op);
      var i :| 0 <= i < |s.tasks| && s.tasks[i].op == op;
      assert Settles(s.tasks[i], q);
      hide Settles, FinalAt;
      SettledAt(before, ops, s, i, q);
    }
  }

  lemma SettledAt(before: Disk, ops: multiset<Op>, s: State, i: nat, q: Path)
    requires AllSettled(before, ops, s) && i < |s.tasks| && Settles(s.tasks[i], q)
    ensures Look(s.disk, q) == FinalAt(before, ops, q)
  {
    hide FinalAt, Settles, Look;
  }

  /** Every call that passes without a failed task leaves the disk that the
      program alone determines, in every interleaving. */
  lemma EveryInterleavingAgrees(program: seq<Op>, workers: nat, before: Disk, events: seq<Event>, end: State)
    requires Compatible(before, ClosureAll(program)) && After(Start(program, workers, before), events) == Some(end)
    requires Passed(end) && NoFailure(end)
    ensures forall q :: Look(end.disk, q) == FinalAt(before, ClosureAll(program), q)
  {
    hide Compatible, ClosureAll, Inv, FinalAt, After, Passed, NoFailure, DiskOk, Start, Measure, Look;
    StartOk(program, workers, before);
    ProgramOfStart(program, workers, before);
    RunsKeepInvariant(Start(program, workers, before), events);
    RunsKeepDisk(program, workers, before, events);
    forall q ensures Look(end.disk, q) == FinalAt(before, ClosureAll(program), q) {
      PassedIsFinal(before, end, q);
    }
  }
}
