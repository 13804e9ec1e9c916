/** Runs of the persistent worker over many requests: which of the listed files are
    at the destination, and which raised requests make one go missing unnoticed. */
module WorkerRuns {
  import opened Text
  import opened SyncFiles
  import opened SyncProtocol
  import opened SyncSafety
  import opened SyncResult
  import opened SyncMirror
  import opened SyncLeftovers
  import opened WorkerRequests
  import opened WorkerDigests

  datatype Step = Step(request: Request, info: string, call: Call, done: bool)

  ghost predicate Happens(w: World, step: Step, dest: Path, w': World) {
    && step.request.entries.Keys <= step.request.source.Keys
    && Handles(w, step.request, dest, step.info, step.call, w', step.done)
  }

  /** Requests of one worker, from its start. */
  ghost predicate IsRun(worlds: seq<World>, steps: seq<Step>, dest: Path) {
    && |worlds| == |steps| + 1 && worlds[0].digests == map[] && worlds[0].current == map[]
    && forall i :: 0 <= i < |steps| ==> Happens(worlds[i], steps[i], dest, worlds[i + 1])
  }

  function Outcomes(steps: seq<Step>): seq<Outcome> {
    if steps == [] then []
    else
      var last := steps[|steps| - 1];
      Outcomes(steps[..|steps| - 1]) + [Outcome(last.request.entries, last.call.end.caller.Returned?)]
  }

  lemma {:induction false} RecordsOf(worlds: seq<World>, steps: seq<Step>, dest: Path)
    requires IsRun(worlds, steps, dest)
    ensures Records(worlds[|steps|].digests, worlds[|steps|].current) == ServedAll(Outcomes(steps))
    ensures worlds[|steps|].current == LastReturned(Outcomes(steps))
    ensures |Outcomes(steps)| == |steps|
  {
    CurrentIsLastReturned(Outcomes(steps));
    if steps != [] {
      var n := |steps| - 1;
      assert IsRun(worlds[..n + 1], steps[..n], dest);
      RecordsOf(worlds[..n + 1], steps[..n], dest);
      assert Happens(worlds[n], steps[n], dest, worlds[n + 1]);
      assert Outcomes(steps)[..n] == Outcomes(steps[..n]);
    }
  }

  // ------------------------------------------------------- files that are there

  /** Whether the file at `p` is as the syncer's record says: copied by a request
      that returned, and listed in the same way by every request since. */
  function Sure(outcomes: seq<Outcome>, p: Path): bool {
    outcomes == [] ||
      var (front, last) := (outcomes[..|outcomes| - 1], outcomes[|outcomes| - 1]);
      var current := LastReturned(front);
      if last.returned then p !in last.incoming || ToCopy(current, last.incoming, p) || Sure(front, p)
      else !ToCopy(current, last.incoming, p) && !ToRemove(current, last.incoming, p) && Sure(front, p)
  }

  /** What wipes the destination has been noticed. */
  lemma SureIsNotWiped(outcomes: seq<Outcome>, p: Path)
    requires p in LastReturned(outcomes) && Sure(outcomes, p)
    ensures ServedAll(outcomes).digests != map[]
  {
  }

  /** Without raised requests every recorded file is there. */
  lemma {:induction false} ReturnedAreSure(outcomes: seq<Outcome>, p: Path)
    requires forall i :: 0 <= i < |outcomes| ==> outcomes[i].returned
    requires p in LastReturned(outcomes)
    ensures Sure(outcomes, p)
  {
    if outcomes != [] {
      var (front, last) := (outcomes[..|outcomes| - 1], outcomes[|outcomes| - 1]);
      if !ToCopy(LastReturned(front), last.incoming, p) { ReturnedAreSure(front, p); }
    }
  }

  /** Requests over paths apart, with digests that stand for their contents, and no
      failure of a task missed. */
  ghost predicate GoodStep(step: Step, tracked: set<Path>, contents: map<string, string>) {
    && step.request.entries.Keys <= tracked && Faithful(step.request.entries, step.request.source, contents)
    && (step.call.end.caller.Returned? ==> NoFailure(step.call.end))
  }

  ghost predicate GoodSteps(steps: seq<Step>, tracked: set<Path>, contents: map<string, string>) {
    Antichain(tracked) && InfoApart(tracked) && forall i :: 0 <= i < |steps| ==> GoodStep(steps[i], tracked, contents)
  }

  ghost predicate SureAreThere(w: World, outcomes: seq<Outcome>, dest: Path, contents: map<string, string>) {
    forall p :: p in w.current ==>
        w.current[p] in contents && (Sure(outcomes, p) ==> IsMirrored(w.disk, dest, p, contents[w.current[p]]))
  }

  ghost predicate WorldOk(w: World, outcomes: seq<Outcome>, dest: Path, tracked: set<Path>,
                          contents: map<string, string>) {
    w.current.Keys <= tracked && FoldersOk(Begun(w, dest), dest, tracked) && SureAreThere(w, outcomes, dest, contents)
  }

  lemma StepFolders(w: World, step: Step, dest: Path, w': World, tracked: set<Path>, contents: map<string, string>)
    requires Happens(w, step, dest, w') && GoodSteps([step], tracked, contents)
    requires w.current.Keys <= tracked && FoldersOk(Begun(w, dest), dest, tracked)
    ensures FoldersOk(Begun(w', dest), dest, tracked)
  {
    var (call, r) := (step.call, step.request);
    assert GoodStep([step][0], tracked, contents);
    var ops := ClosureAll(call.program);
    hide ClosureAll, After, Start, ProgramFor, NoFailure, Faithful;
    forall op | op in ops ensures !op.CopyDir? && op.dest != [] && dest <= op.dest && op.dest[|dest|..] in tracked {
      OpListed(dest, w.current, r.entries, r.source, call.program, op);
      assert op.dest[|dest|..] in tracked && op.dest[|dest|..] != [];
    }
    RunsKeepFolders(call.program, call.workers, Begun(w, dest), call.events, dest, tracked);
    InfoIsNoFolder(call.end.disk, dest, step.info, tracked);
    WipeIsOk(w', dest, tracked);
  }

  lemma InfoIsNoFolder(d: Disk, dest: Path, info: string, tracked: set<Path>)
    requires FoldersOk(d, dest, tracked)
    ensures FoldersOk(WithInfo(d, dest, info), dest, tracked)
  {
    forall p | Look(WithInfo(d, dest, info), dest + p) == Some(Folder)
      ensures p == [] || exists t :: t in tracked && p < t {
      assert Look(d, dest + p) == Some(Folder);
    }
  }

  lemma WipeIsOk(w: World, dest: Path, tracked: set<Path>)
    requires w.digests != map[] ==> FoldersOk(w.disk, dest, tracked)
    ensures FoldersOk(Begun(w, dest), dest, tracked)
  {
    if w.digests == map[] {
      forall p ensures Look(Wiped(w.disk, dest), dest + p) == None { assert dest <= dest + p; }
    }
  }

  lemma StepSure(w: World, step: Step, dest: Path, w': World, front: seq<Outcome>, tracked: set<Path>,
                 contents: map<string, string>, p: Path)
    requires Happens(w, step, dest, w') && GoodSteps([step], tracked, contents)
             && WorldOk(w, front, dest, tracked, contents)
    requires Records(w.digests, w.current) == ServedAll(front) && w.current == LastReturned(front)
    requires p in w'.current
    ensures w'.current[p] in contents
    ensures Sure(front + [Outcome(step.request.entries, step.call.end.caller.Returned?)], p) ==>
              IsMirrored(w'.disk, dest, p, contents[w'.current[p]])
  {
    var (call, r) := (step.call, step.request);
    var after := front + [Outcome(r.entries, call.end.caller.Returned?)];
    assert GoodStep([step][0], tracked, contents);
    assert p in tracked && after[..|after| - 1] == front;
    assert Antichain(w.current.Keys + r.entries.Keys);
    if Sure(after, p) {
      if p in w.current && Sure(front, p) { SureIsNotWiped(front, p); }
      hide Handles, NoFailure, FoldersOk, ClosureAll;
      if call.end.caller.Returned? {
        assert p in r.entries by { HandledRecords(w, step, dest, w'); }
        if ToCopy(w.current, r.entries, p) && w.digests != map[] { NoFolderAtTracked(w.disk, dest, tracked, p); }
        RequestMirrorsIff(w, r, dest, step.info, call, w', step.done, contents, p);
        HandledRecords(w, step, dest, w');
      } else {
        HandledRecords(w, step, dest, w');
        UnlistedStays(w, r, dest, step.info, call, w', step.done, p);
      }
    } else {
      HandledRecords(w, step, dest, w');
    }
  }

  lemma HandledRecords(w: World, step: Step, dest: Path, w': World)
    requires Happens(w, step, dest, w')
    ensures w'.digests == step.request.entries
            && w'.current == if step.call.end.caller.Returned? then step.request.entries else w.current
  {
    hide ProgramFor, After, Start;
  }

  lemma NoFolderAtTracked(d: Disk, dest: Path, tracked: set<Path>, p: Path)
    requires FoldersOk(d, dest, tracked) && Antichain(tracked) && p in tracked
    ensures Look(d, dest + p) != Some(Folder)
  {
  }

  lemma {:induction false} RunsAreOk(worlds: seq<World>, steps: seq<Step>, dest: Path, tracked: set<Path>,
                                     contents: map<string, string>)
    requires IsRun(worlds, steps, dest) && GoodSteps(steps, tracked, contents)
    ensures WorldOk(worlds[|steps|], Outcomes(steps), dest, tracked, contents)
  {
    if steps == [] {
      hide FoldersOk;
      WipeIsOk(worlds[0], dest, tracked);
    } else {
      var n := |steps| - 1;
      var (w, step, w', front) := (worlds[n], steps[n], worlds[n + 1], steps[..n]);
      assert IsRun(worlds[..n + 1], front, dest);
      hide Handles, FoldersOk, Sure, NoFailure, Faithful;
      RunsAreOk(worlds[..n + 1], front, dest, tracked, contents);
      RecordsOf(worlds[..n + 1], front, dest);
      assert Happens(w, step, dest, w') && GoodSteps([step], tracked, contents);
      StepFolders(w, step, dest, w', tracked, contents);
      HandledRecords(w, step, dest, w');
      assert GoodStep(step, tracked, contents);
      forall p | p in w'.current
        ensures w'.current[p] in contents
                && (Sure(Outcomes(steps), p) ==> IsMirrored(w'.disk, dest, p, contents[w'.current[p]]))
      {
        StepSure(w, step, dest, w', Outcomes(front), tracked, contents, p);
      }
    }
  }

  /** After any run of requests, whatever was raised and done by halves, every file
      of the last returned one that is sure is at the destination with the content
      of its digest. */
  lemma SureIsMirrored(worlds: seq<World>, steps: seq<Step>, dest: Path, tracked: set<Path>,
                       contents: map<string, string>, p: Path)
    requires IsRun(worlds, steps, dest) && GoodSteps(steps, tracked, contents)
    requires p in LastReturned(Outcomes(steps)) && Sure(Outcomes(steps), p)
    ensures LastReturned(Outcomes(steps))[p] in contents
    ensures IsMirrored(worlds[|steps|].disk, dest, p, contents[LastReturned(Outcomes(steps))[p]])
  {
    RunsAreOk(worlds, steps, dest, tracked, contents);
    RecordsOf(worlds, steps, dest);
    hide IsRun, GoodSteps, Sure, FoldersOk;
  }

  /** A worker none of whose requests raised mirrors the last one. */
  lemma ReturnedRunsMirror(worlds: seq<World>, steps: seq<Step>, dest: Path, tracked: set<Path>,
                           contents: map<string, string>, p: Path)
    requires IsRun(worlds, steps, dest) && GoodSteps(steps, tracked, contents)
    requires steps != [] && forall i :: 0 <= i < |steps| ==> steps[i].call.end.caller.Returned?
    requires p in steps[|steps| - 1].request.entries
    ensures var x := steps[|steps| - 1].request.entries[p];
            x in contents && IsMirrored(worlds[|steps|].disk, dest, p, contents[x])
  {
    OutcomeAt(steps);
    hide IsRun, GoodSteps, Sure;
    ReturnedAreSure(Outcomes(steps), p);
    SureIsMirrored(worlds, steps, dest, tracked, contents, p);
  }

  lemma {:induction false} OutcomeAt(steps: seq<Step>)
    ensures |Outcomes(steps)| == |steps|
    ensures forall i :: 0 <= i < |steps| ==>
              Outcomes(steps)[i] == Outcome(steps[i].request.entries, steps[i].call.end.caller.Returned?)
  {
    if steps != [] { OutcomeAt(steps[..|steps| - 1]); }
  }

  // -------------------------------------------------------------- files wiped

  /** Of the requests that start with a wipe one goes through and yet leaves out a
      listed file exactly when the request before it had no digests and raised, the
      last one to return lists the file with the same digest, and something else
      is to be copied. */
  lemma LostByWipeIff(worlds: seq<World>, steps: seq<Step>, dest: Path, p: Path)
    requires IsRun(worlds, steps, dest) && steps != []
    requires var (w, step) := (worlds[|steps| - 1], steps[|steps| - 1]);
             && step.call.end.caller.Returned? && NoFailure(step.call.end) && p in step.request.entries
             && Antichain(w.current.Keys + step.request.entries.Keys)
             && InfoApart(w.current.Keys + step.request.entries.Keys)
    ensures var (n, before) := (|steps| - 1, Outcomes(steps[..|steps| - 1]));
            var (step, last) := (steps[n], LastReturned(before));
            (worlds[n].digests == map[] && step.done && Look(worlds[n + 1].disk, dest + p) == None)
            <==> && before != [] && !before[|before| - 1].returned && before[|before| - 1].incoming == map[]
                 && p in last && last[p] == step.request.entries[p] && exists q :: ToCopy(last, step.request.entries, q)
  {
    var n := |steps| - 1;
    var (w, step, w') := (worlds[n], steps[n], worlds[n + 1]);
    assert IsRun(worlds[..n + 1], steps[..n], dest) && Happens(w, step, dest, w');
    RecordsOf(worlds[..n + 1], steps[..n], dest);
    var before := Outcomes(steps[..n]);
    assert p in w.current.Keys + step.request.entries.Keys;
    if w.digests == map[] {
      hide Handles, NoFailure, IsRun;
      WipedGoesThroughIff(w, step.request, dest, step.info, step.call, w', step.done);
      WipedIsGone(w, step, dest, w', p);
      EmptyRecords(before);
    } else {
      assert before == [] ==> w.digests == map[];
      assert before != [] ==> w.digests == before[|before| - 1].incoming;
    }
  }

  lemma EmptyRecords(outcomes: seq<Outcome>)
    requires ServedAll(outcomes).digests == map[]
    ensures outcomes == [] || outcomes[|outcomes| - 1].returned ==> LastReturned(outcomes) == map[]
    ensures outcomes != [] ==> outcomes[|outcomes| - 1].incoming == map[]
  {
  }

  lemma WipedIsGone(w: World, step: Step, dest: Path, w': World, p: Path)
    requires Happens(w, step, dest, w') && w.digests == map[] && step.call.end.caller.Returned?
             && NoFailure(step.call.end)
    requires Antichain(w.current.Keys + step.request.entries.Keys)
             && InfoApart(w.current.Keys + step.request.entries.Keys)
    requires p in step.request.entries
    ensures Look(w'.disk, dest + p) == None <==> !ToCopy(w.current, step.request.entries, p)
  {
    var r := step.request;
    assert p in w.current.Keys + r.entries.Keys;
    hide Handles, NoFailure, Antichain;
    if ToCopy(w.current, r.entries, p) {
      CopiedIsThere(w, step, dest, w', p);
    } else {
      UnlistedStays(w, r, dest, step.info, step.call, w', step.done, p);
      assert dest <= dest + p;
    }
  }

  lemma CopiedIsThere(w: World, step: Step, dest: Path, w': World, p: Path)
    requires Happens(w, step, dest, w') && w.digests == map[] && step.call.end.caller.Returned?
             && NoFailure(step.call.end)
    requires Antichain(w.current.Keys + step.request.entries.Keys)
             && InfoApart(w.current.Keys + step.request.entries.Keys)
    requires ToCopy(w.current, step.request.entries, p)
    ensures Look(w'.disk, dest + p) != None
  {
    var (r, call, d) := (step.request, step.call, Begun(w, dest));
    assert Passed(call.end) && forall q :: dest <= q ==> Look(d, q) == None;
    assert p in w.current.Keys + r.entries.Keys;
    hide After, Start, Passed, NoFailure, ClosureAll, Compatible, FinalAt, Begun;
    CompatibleWhere(d, dest, w.current, r.entries, r.source, call.program);
    EveryInterleavingAgrees(call.program, call.workers, d, call.events, call.end);
    var op :| op in call.program && op.dest == dest + p;
    FlatOps(w.current, r.entries, r.source, dest, call.program, op);
    OpListed(dest, w.current, r.entries, r.source, call.program, op);
    TaskPath(dest, op.dest, p);
    FinalAtTarget(d, ClosureAll(call.program), op);
    InfoIsElsewhere(call.end.disk, dest, step.info, p);
  }

  /** Whether the file at `p` has been wiped and, as recorded, been listed by that
      request and by every one since. */
  function Gone(outcomes: seq<Outcome>, p: Path): bool {
    outcomes != [] &&
      var (front, last) := (outcomes[..|outcomes| - 1], outcomes[|outcomes| - 1]);
      && p in LastReturned(front) && p in last.incoming && LastReturned(front)[p] == last.incoming[p]
      && (ServedAll(front).digests == map[] || Gone(front, p))
  }

  /** Such a file is missing after any run, however many requests have gone through
      since: only another digest brings it back. */
  lemma {:induction false} GoneIsMissing(worlds: seq<World>, steps: seq<Step>, dest: Path, tracked: set<Path>, p: Path)
    requires IsRun(worlds, steps, dest) && Antichain(tracked) && InfoApart(tracked)
    requires forall i :: 0 <= i < |steps| ==> steps[i].request.entries.Keys <= tracked
    requires Gone(Outcomes(steps), p)
    ensures Look(worlds[|steps|].disk, dest + p) == None
  {
    var n := |steps| - 1;
    RecordsOf(worlds, steps, dest);
    assert steps != [];
    var (w, step, w', front) := (worlds[n], steps[n], worlds[n + 1], steps[..n]);
    assert IsRun(worlds[..n + 1], front, dest) && Happens(w, step, dest, w') && worlds[..n + 1][|front|] == w;
    RecordsOf(worlds[..n + 1], front, dest);
    assert Outcomes(steps)[..n] == Outcomes(front);
    RecordedAreTracked(worlds[..n + 1], front, dest, tracked);
    if w.digests != map[] { GoneIsMissing(worlds[..n + 1], front, dest, tracked, p); }
    hide Handles, IsRun, Gone, Outcomes;
    assert Look(Begun(w, dest), dest + p) == None by { assert dest <= dest + p; }
    assert p in tracked && step.request.entries.Keys <= tracked;
    UnlistedStays(w, step.request, dest, step.info, step.call, w', step.done, p);
  }

  lemma {:induction false} RecordedAreTracked(worlds: seq<World>, steps: seq<Step>, dest: Path, tracked: set<Path>)
    requires IsRun(worlds, steps, dest) && forall i :: 0 <= i < |steps| ==> steps[i].request.entries.Keys <= tracked
    ensures worlds[|steps|].current.Keys <= tracked
  {
    if steps != [] {
      var n := |steps| - 1;
      assert IsRun(worlds[..n + 1], steps[..n], dest);
      RecordedAreTracked(worlds[..n + 1], steps[..n], dest, tracked);
      assert Happens(worlds[n], steps[n], dest, worlds[n + 1]);
    }
  }

  // ------------------------------------------------------------ failing runs

  /** A call whose only task fails and is recorded in time raises. */
  lemma OneTaskRaises(op: Op, workers: nat, disk: Disk, left: Disk) returns (run: seq<Event>, end: State)
    requires workers > 0 && CanLeave(disk, left, op)
    ensures After(Start([op], workers, disk), run) == Some(end) && end.caller.Raised? && end.disk == left
  {
    var s := Start([op], workers, disk);
    run := OneTaskStarts(op, workers, disk);
    var started := State([op], workers, [Task(op, Started)], 1, 0, Asleep, disk);
    var t := State([op], workers, [Task(op, Left(true, 0))], 0, 0, Woken, left);
    var u := t.(tasks := [Task(op, Recorded(true, 0))], errors := 1);
    hide After, Sum, Children, CanMkdir, CanCopy, CanLeave;
    run := OnlyTaskFails(s, run, started, left);
    run := Extend(s, run, t, Record(0), u);
    run := Extend(s, run, u, Test, u.(caller := Checking));
    end := u.(caller := Raised);
    run := Extend(s, run, u.(caller := Checking), Check, end);
  }

  function Copying(f: SourceFile, p: Path): Op {
    CopyFile(f.content, f.writable, p)
  }

  /** A first file below the destination. */
  lemma FirstFile(d: Disk, dest: Path, a: string, f: SourceFile)
    requires Untouched(d, dest)
    ensures var op := Copying(f, dest + [a]);
            && CanMkdir(d, Parent(op.dest)) && CanCopy(Mkdir(d, Parent(op.dest)), op)
            && forall q :: Look(OneResult(op, d), q) == if q == op.dest then Some(Plain(f.content, true))
                 else if q <= dest then Some(Folder) else Look(d, q)
  {
    var op := Copying(f, dest + [a]);
    assert Parent(op.dest) == dest;
    forall q | q <= dest && q in d ensures d[q] == Folder { assert q == dest || q < dest; }
    assert !(op.dest <= dest) && dest <= op.dest;
    assert Look(Mkdir(d, dest), op.dest) == None;
  }

  /** The steps of a request with one task, which is done. */
  lemma OneCopied(w: World, r: Request, dest: Path, info: string, a: string) returns (step: Step, w': World)
    requires r.entries.Keys <= r.source.Keys && [a] in r.entries && Untouched(Begun(w, dest), dest) && a != INFO
    requires forall p :: ToCopy(w.current, r.entries, p) <==> p == [a]
    requires forall p :: !ToRemove(w.current, r.entries, p)
    ensures Happens(w, step, dest, w') && step.request == r && step.info == info && step.done
            && step.call.end.caller.Returned? && NoFailure(step.call.end)
    ensures w'.digests == w'.current == r.entries
    ensures forall q :: Look(w'.disk, q) ==
              if q == dest + [INFO] then Some(Plain(info, true))
                  else if q == dest + [a] then Some(Plain(r.source[[a]].content, true))
              else if q <= dest then Some(Folder) else Look(Begun(w, dest), q)
  {
    var (d, op) := (Begun(w, dest), Copying(r.source[[a]], dest + [a]));
    FirstFile(d, dest, a, r.source[[a]]);
    TaskPath(dest, dest + [a], [a]);
    assert op in [op] && TaskDue(w.current, r.entries, r.source, dest, op);
    assert ProgramFor(w.current, r.entries, r.source, dest, [op]);
    hide OneResult, CanMkdir, CanCopy, CanLeave, Untouched, NoFailure, After, Start, ProgramFor, Begun;
    var run, end := OneTaskRuns(op, 1, d);
    var call := Call([op], 1, run, end);
    assert dest <= dest + [INFO] && dest + [INFO] != dest + [a] && !(dest + [INFO] <= dest);
    assert Look(d, dest + [INFO]) == None by { UntouchedBelow(d, dest, dest + [INFO]); }
    assert CanOpen(end.disk, dest);
    w' := World(WithInfo(end.disk, dest, info), r.entries, r.entries);
    step := Step(r, info, call, true);
    assert Handles(w, r, dest, info, call, w', true);
  }

  lemma UntouchedBelow(d: Disk, dest: Path, q: Path)
    requires Untouched(d, dest) && dest <= q
    ensures Look(d, q) == None
  {
  }

  /** The steps of a request with one task, which fails. */
  lemma OneFailed(w: World, r: Request, dest: Path, info: string, op: Op, left: Disk) returns (step: Step, w': World)
    requires r.entries.Keys <= r.source.Keys && ProgramFor(w.current, r.entries, r.source, dest, [op])
             && CanLeave(Begun(w, dest), left, op)
    ensures Happens(w, step, dest, w') && step.request == r && !step.done && !step.call.end.caller.Returned?
    ensures w' == World(left, r.entries, w.current)
  {
    hide CanLeave, NoFailure, After, Start, ProgramFor, Begun;
    var run, end := OneTaskRaises(op, 1, Begun(w, dest), left);
    var call := Call([op], 1, run, end);
    w' := World(left, r.entries, w.current);
    step := Step(r, info, call, false);
    assert Handles(w, r, dest, info, call, w', false);
  }

  /** A request with `a` returns, one without files raises, and the next with `a` as
      it was and with `b` goes through: `a` has been wiped and not copied again. */
  lemma FileIsLost(disk: Disk, dest: Path, a: string, b: string, x: string, y: string, f: SourceFile, g: SourceFile,
                   info: string)
    returns (worlds: seq<World>, steps: seq<Step>)
    requires Untouched(disk, dest) && a != b && a != INFO && b != INFO
    ensures IsRun(worlds, steps, dest) && |steps| == 3
    ensures steps[0].request.entries == map[[a] := x] && steps[0].done
    ensures steps[1].request.entries == map[] && !steps[1].call.end.caller.Returned?
    ensures steps[2].request.entries == map[[a] := x, [b] := y] && steps[2].done && NoFailure(steps[2].call.end)
    ensures Look(worlds[3].disk, dest + [a]) == None
  {
    var w0 := World(disk, map[], map[]);
    WipedUntouched(disk, dest);
    var s0, w1 := OneCopied(w0, Request(map[[a] := x], map[[a] := f]), dest, info, a);
    var op := RemovePath(dest + [a]);
    RemovalDue(dest, a, x);
    CanLeaveAlone(w1.disk, op);
    assert Begun(w1, dest) == w1.disk;
    var s1, w2 := OneFailed(w1, Request(map[], map[]), dest, info, op, w1.disk);
    FoldersStay(w1.disk, dest);
    assert Begun(w2, dest) == Wiped(w2.disk, dest);
    TwoFiles(a, b, x, y);
    var s2, w3 := OneCopied(w2, Request(map[[a] := x, [b] := y], map[[a] := f, [b] := g]), dest, info, b);
    assert dest <= dest + [a] && dest + [a] != dest + [b] && dest + [a] != dest + [INFO] && !(dest + [a] <= dest);
    worlds, steps := [w0, w1, w2, w3], [s0, s1, s2];
    hide Happens, NoFailure;
    forall i | 0 <= i < 3 ensures Happens(worlds[i], steps[i], dest, worlds[i + 1]) {}
  }

  lemma RemovalDue(dest: Path, a: string, x: string)
    ensures ProgramFor(map[[a] := x], map[], map[], dest, [RemovePath(dest + [a])])
  {
    var op := RemovePath(dest + [a]);
    TaskPath(dest, dest + [a], [a]);
    assert op in [op];
  }

  lemma WipedUntouched(d: Disk, dest: Path)
    requires Untouched(d, dest)
    ensures Untouched(Wiped(d, dest), dest)
  {
    forall q | q in Wiped(d, dest) ensures q in d && !(dest <= q) && Wiped(d, dest)[q] == d[q] {
      assert Look(Wiped(d, dest), q) == if dest <= q then None else Look(d, q);
    }
  }

  lemma FoldersStay(d: Disk, dest: Path)
    requires dest != [] && forall q :: q <= dest ==> Look(d, q) == Some(Folder)
    ensures Untouched(Wiped(d, dest), dest)
  {
    forall q | q in Wiped(d, dest) ensures !(dest <= q) && (q < dest ==> Wiped(d, dest)[q] == Folder) {
      assert Look(Wiped(d, dest), q) == if dest <= q then None else Look(d, q);
    }
  }

  lemma TwoFiles(a: string, b: string, x: string, y: string)
    requires a != b
    ensures forall p :: ToCopy(map[[a] := x], map[[a] := x, [b] := y], p) <==> p == [b]
    ensures forall p :: !ToRemove(map[[a] := x], map[[a] := x, [b] := y], p)
  {
    assert [a] != [b];
  }

  /** A request with `a` returns, one with another `a` raises in the middle of the
      copy, and the next with the first `a` again copies nothing and goes through:
      the half-written file stays. */
  lemma FileIsTorn(disk: Disk, dest: Path, a: string, x: string, y: string, f: SourceFile, g: SourceFile, torn: string,
                   info: string)
    returns (worlds: seq<World>, steps: seq<Step>)
    requires Untouched(disk, dest) && a != INFO && x != y
    ensures IsRun(worlds, steps, dest) && |steps| == 3
    ensures steps[0].request.entries == map[[a] := x] && steps[0].done
    ensures steps[1].request.entries == map[[a] := y] && !steps[1].call.end.caller.Returned?
    ensures steps[2].request.entries == map[[a] := x] && steps[2].done && steps[2].call.program == []
            && NoFailure(steps[2].call.end)
    ensures Look(worlds[3].disk, dest + [a]) == Some(Plain(torn, true))
  {
    var w0 := World(disk, map[], map[]);
    WipedUntouched(disk, dest);
    var s0, w1 := OneCopied(w0, Request(map[[a] := x], map[[a] := f]), dest, info, a);
    var (op, left) := (Copying(g, dest + [a]), w1.disk[dest + [a] := Plain(torn, true)]);
    ChangeDue(dest, a, x, y, g);
    assert Begun(w1, dest) == w1.disk && CanLeave(w1.disk, left, op);
    var s1, w2 := OneFailed(w1, Request(map[[a] := y], map[[a] := g]), dest, info, op, left);
    assert Begun(w2, dest) == left;
    var run := NothingRuns(1, left);
    var end := State([], 1, [], 0, 0, Returned, left);
    var r := Request(map[[a] := x], map[[a] := f]);
    assert dest + [INFO] != dest + [a] && !(dest + [INFO] <= dest) && !(dest + [a] <= dest);
    assert CanOpen(left, dest);
    var w3 := World(WithInfo(left, dest, info), r.entries, r.entries);
    var s2 := Step(r, info, Call([], 1, run, end), true);
    assert Happens(w2, s2, dest, w3) && NoFailure(end);
    worlds, steps := [w0, w1, w2, w3], [s0, s1, s2];
    hide Happens, NoFailure, Look;
    forall i | 0 <= i < 3 ensures Happens(worlds[i], steps[i], dest, worlds[i + 1]) {}
  }

  lemma ChangeDue(dest: Path, a: string, x: string, y: string, g: SourceFile)
    requires x != y
    ensures ProgramFor(map[[a] := x], map[[a] := y], map[[a] := g], dest, [Copying(g, dest + [a])])
  {
    var op := Copying(g, dest + [a]);
    TaskPath(dest, dest + [a], [a]);
    assert op in [op];
  }
}
