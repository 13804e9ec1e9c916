/** The syncer object: its fields, the sections that run under its lock, and its
    two entry points, on any schedule of its threads. */
module DirectorySyncer {
  import opened Text
  import opened SyncFiles
  import opened SyncProtocol
  import opened SyncSafety
  import opened SyncCopytree
  import opened SyncMirror

  class Syncer {
    const dest: Path
    const workers: nat
    var currentShas: Shas
    var remaining: int
    var errors: nat
    var pool: seq<Task>
    var caller: Caller
    var program: seq<Op>
    var disk: Disk

    constructor (dest: Path, workers: nat, disk: Disk)
      ensures this.dest == dest && this.workers == workers && this.disk == disk && currentShas == map[]
    {
      this.dest, this.workers, this.disk := dest, workers, disk;
      currentShas, remaining, errors := map[], 0, 0;
      pool, caller, program := [], Returned, [];
    }

    function Snapshot(): State reads this {
      State(program, workers, pool, remaining, errors, caller, disk)
    }

    /** `_reset_state` and a new executor. */
    method ResetState(ops: seq<Op>)
      modifies this`remaining, this`errors, this`pool, this`caller, this`program
      ensures Snapshot() == Start(ops, workers, disk)
    {
      errors := 0;
      remaining := 0;
      pool, caller, program := [], Submitting(0, false), ops;
    }

    /** The locked half of `_submit_task`. */
    method CountTask()
      modifies this`remaining
      ensures remaining == old(remaining) + 1
    {
      remaining := remaining + 1;
    }

    /** `executor.submit`. */
    method HandToPool(op: Op)
      modifies this`pool
      ensures pool == old(pool) + [Task(op, Queued)]
    {
      pool := pool + [Task(op, Queued)];
    }

    /** `_task_finished`. */
    method TaskFinished()
      modifies this`remaining, this`caller
      ensures remaining == old(remaining) - 1
      ensures caller == if remaining == 0 && old(caller).Asleep? then Woken else old(caller)
    {
      remaining := remaining - 1;
      if remaining == 0 && caller.Asleep? {
        caller := Woken;
      }
    }

    /** `_handle_task_done`. */
    method HandleTaskDone(failed: bool)
      modifies this`errors
      ensures errors == old(errors) + if failed then 1 else 0
    {
      if failed { errors := errors + 1; }
    }

    method SetPhaseOf(i: nat, phase: Phase)
      requires i < |pool|
      modifies this`pool
      ensures pool == SetPhase(old(pool), i, phase)
    {
      pool := pool[i := pool[i].(phase := phase)];
    }

    /** One step of the calling thread. */
    method CallerStep(e: Event)
      requires Enabled(Snapshot(), e) && Who(e).None?
      modifies this`remaining, this`caller, this`pool
      ensures Snapshot() == Apply(old(Snapshot()), e)
    {
      hide CanMkdir, CanCopy, CanLeave, Children, Sum, Mkdir, Copied, Removed;
      match e {
        case Count =>
          CountTask();
          caller := Submitting(caller.k, true);
        case Enqueue =>
          HandToPool(program[caller.k]);
          caller := Submitting(caller.k + 1, false);
        case Test => caller := if remaining > 0 then Asleep else Checking;
        case Check => caller := if errors > 0 then Raised else Returned;
      }
    }

    /** One step of a pool thread that works on the files of its task. */
    method FileStep(e: Event)
      requires Enabled(Snapshot(), e) && (e.MakeFolders? || e.Copy? || e.Remove? || e.Fail?)
      modifies this`pool, this`disk
      ensures Snapshot() == Apply(old(Snapshot()), e)
    {
      hide CanMkdir, CanCopy, CanLeave, Children, Sum, Mkdir, Copied, Removed;
      var i := e.i;
      var op := pool[i].op;
      match e {
        case MakeFolders(_) =>
          disk := Mkdir(disk, if op.CopyDir? then op.dest else Parent(op.dest));
          SetPhaseOf(i, if op.CopyDir? then Scanning(0, false) else Copying);
        case Copy(_) =>
          disk := Copied(disk, op);
          SetPhaseOf(i, Leaving(false, 0));
        case Remove(_) =>
          disk := Removed(disk, op.dest);
          SetPhaseOf(i, Leaving(false, 0));
        case Fail(_, left) =>
          disk := left;
          SetPhaseOf(i, Leaving(true, Submitted(pool[i].phase)));
      }
    }

    /** One step of a pool thread towards the pool or the counter. */
    method PoolStep(e: Event)
      requires Enabled(Snapshot(), e) && Who(e).Some? && !(e.MakeFolders? || e.Copy? || e.Remove? || e.Fail?)
      modifies this`remaining, this`errors, this`caller, this`pool
      ensures Snapshot() == Apply(old(Snapshot()), e)
    {
      hide CanMkdir, CanCopy, CanLeave, Children, Sum, Mkdir, Copied, Removed;
      var i := e.i;
      var phase := pool[i].phase;
      match e {
        case Begin(_) => SetPhaseOf(i, Started);
        case CountChild(_) =>
          CountTask();
          SetPhaseOf(i, Scanning(phase.submitted, true));
        case EnqueueChild(_) =>
          var child := Children(pool[i].op)[phase.submitted];
          SetPhaseOf(i, Scanning(phase.submitted + 1, false));
          HandToPool(child);
        case ScanDone(_) => SetPhaseOf(i, Leaving(false, phase.submitted));
        case Finish(_) =>
          SetPhaseOf(i, Left(phase.failed, phase.submitted));
          TaskFinished();
        case Record(_) =>
          SetPhaseOf(i, Recorded(phase.failed, phase.submitted));
          HandleTaskDone(phase.failed);
      }
    }

    /** Runs a schedule, passing over the events that are not possible when
        their turn comes. */
    method RunSchedule(schedule: seq<Event>) returns (ghost taken: seq<Event>)
      modifies this`remaining, this`errors, this`caller, this`pool, this`disk
      ensures After(old(Snapshot()), taken) == Some(Snapshot())
    {
      hide Enabled, Apply;
      taken := [];
      for k := 0 to |schedule|
        invariant After(old(Snapshot()), taken) == Some(Snapshot())
      {
        var e := schedule[k];
        if !Enabled(Snapshot(), e) { continue; }
        ghost var before := Snapshot();
        if Who(e).None? {
          CallerStep(e);
        } else if e.MakeFolders? || e.Copy? || e.Remove? || e.Fail? {
          FileStep(e);
        } else {
          PoolStep(e);
        }
        taken := Extend(old(Snapshot()), taken, before, e, Snapshot());
      }
    }

    /** `copytree`, once `rmtree` has cleared the destination. */
    method Copytree(entries: seq<Entry>, schedule: seq<Event>) returns (returned: bool)
      requires GoodTree(Branch(entries)) && Clear(disk, dest)
      modifies this`remaining, this`errors, this`caller, this`pool, this`disk, this`program
      ensures Inv(Snapshot()) && returned == caller.Returned?
      ensures returned && NoFailure(Snapshot()) ==> disk == CopyInto(old(disk), Branch(entries), dest)
    {
      hide After, Inv, Measure, GoodTree, Clear, NoFailure, CopyInto;
      var ops := [CopyDir(entries, dest)];
      ResetState(ops);
      ghost var taken := RunSchedule(schedule);
      StartOk(ops, workers, old(disk));
      RunsKeepInvariant(Start(ops, workers, old(disk)), taken);
      returned := caller.Returned?;
      if returned && NoFailure(Snapshot()) {
        hide Start;
        CopytreeIsSequential(entries, dest, workers, old(disk), taken, Snapshot());
      }
    }

    /** The tasks of a sync, in some order of the set and the dictionary. */
    method Plan(entries: Shas, source: map<Path, SourceFile>) returns (ops: seq<Op>)
      requires entries.Keys <= source.Keys
      ensures ProgramFor(currentShas, entries, source, dest, ops)
      ensures ops == [] ==> forall p :: !ToRemove(currentShas, entries, p) && !ToCopy(currentShas, entries, p)
    {
      ops := [];
      var rest := set p | p in currentShas && ToRemove(currentShas, entries, p);
      while rest != {}
        invariant forall p :: p in rest ==> ToRemove(currentShas, entries, p)
        invariant forall p :: ToRemove(currentShas, entries, p) ==> p in rest || RemovePath(dest + p) in ops
        invariant forall op :: op in ops ==> TaskDue(currentShas, entries, source, dest, op)
        decreases |rest|
      {
        var p :| p in rest;
        rest := rest - {p};
        ops := ops + [RemovePath(dest + p)];
        TaskPath(dest, dest + p, p);
      }
      ghost var removals := ops;
      rest := set p | p in entries && ToCopy(currentShas, entries, p);
      while rest != {}
        invariant forall p :: p in rest ==> ToCopy(currentShas, entries, p)
        invariant forall p :: ToCopy(currentShas, entries, p) ==>
                    p in rest || CopyFile(source[p].content, source[p].writable, dest + p) in ops
        invariant forall op :: op in removals ==> op in ops
        invariant forall op :: op in ops ==> TaskDue(currentShas, entries, source, dest, op)
        decreases |rest|
      {
        var p :| p in rest;
        rest := rest - {p};
        ops := ops + [CopyFile(source[p].content, source[p].writable, dest + p)];
        TaskPath(dest, dest + p, p);
      }
    }

    /** `shutil.rmtree` of the destination. */
    method Wipe()
      modifies this`disk
      ensures disk == Wiped(old(disk), dest)
    {
      disk := Wiped(disk, dest);
    }

    /** A file written below the destination. */
    method WriteFile(p: Path, content: string)
      modifies this`disk
      ensures disk == old(disk)[dest + p := Plain(content, true)]
    {
      disk := disk[dest + p := Plain(content, true)];
    }

    /** `sync`. A raised error leaves the recorded digests alone. */
    method Sync(entries: Shas, source: map<Path, SourceFile>, schedule: seq<Event>,
                ghost tracked: set<Path>, ghost untracked: set<Path>, ghost contents: map<string, string>)
      returns (ghost taken: seq<Event>)
      requires entries.Keys <= source.Keys
      modifies this
      ensures currentShas == if caller.Returned? then entries else old(currentShas)
      ensures ProgramFor(old(currentShas), entries, source, dest, program)
      ensures After(Start(program, workers, old(disk)), taken) == Some(Snapshot())
      ensures old(Mirrors(disk, dest, currentShas, tracked, untracked, contents))
              && Faithful(entries, source, contents) && Antichain(tracked + entries.Keys)
              && caller.Returned? && NoFailure(Snapshot())
              ==> Mirrors(disk, dest, entries, tracked + entries.Keys, untracked, contents)
    {
      hide After, NoFailure, ProgramFor, Antichain, Mirrors, ToRemove, ToCopy, Faithful, Inv, Measure;
      var ops := Plan(entries, source);
      ResetState(ops);
      if ops == [] {
        SameRecord(currentShas, entries);
        if Mirrors(disk, dest, currentShas, tracked, untracked, contents) {
          NothingToDo(disk, dest, currentShas, entries, tracked, untracked, contents);
        }
        caller := Returned;
        currentShas := entries;
        taken := NothingRuns(workers, disk);
        return;
      }
      ghost var before := currentShas;
      taken := RunSchedule(schedule);
      StartOk(ops, workers, old(disk));
      RunsKeepInvariant(Start(ops, workers, old(disk)), taken);
      assert program == ops;
      if caller.Returned? {
        if old(Mirrors(disk, dest, currentShas, tracked, untracked, contents))
           && Faithful(entries, source, contents) && Antichain(tracked + entries.Keys) && NoFailure(Snapshot()) {
          hide Start;
          SyncMirrorsEntries(old(disk), dest, before, entries, source, tracked, untracked, contents, ops, workers,
              taken, Snapshot());
        }
        currentShas := entries;
      }
    }
  }
}
