/** What an earlier sync leaves behind can keep a later one from mirroring an
    entry: exactly the entries are mirrored that meet no leftover folder. */
module SyncLeftovers {
  import opened Text
  import opened SyncFiles
  import opened SyncProtocol
  import opened SyncSafety
  import opened SyncResult
  import opened SyncMirror

  // ------------------------------------------------------------ one path

  /** Of the tasks only copies of `content` are at `path`, and none is above or
      below it. */
  ghost predicate OnlyCopies(ops: multiset<Op>, path: Path, content: string) {
    forall op :: op in ops ==>
      && !op.CopyDir? && op.dest != [] && !(path < op.dest) && !(op.dest < path)
      && (op.dest == path ==> op.CopyFile? && op.content == content)
  }

  predicate CopiedTo(t: Task, path: Path) {
    t.op.CopyFile? && t.op.dest == path && (t.phase.Leaving? || t.phase.Left? || t.phase.Recorded?)
  }

  ghost predicate SomeCopied(tasks: seq<Task>, path: Path) {
    exists i :: 0 <= i < |tasks| && CopiedTo(tasks[i], path)
  }

  /** The path while the tasks run: a folder stays, and anything else is the copy
      as soon as one has been made. */
  ghost function During(before: Option<Item>, copied: bool, content: string): Option<Item> {
    if before == Some(Folder) || !copied then before else Some(Plain(content, true))
  }

  ghost predicate PathOk(s: State, before: Option<Item>, path: Path, content: string) {
    NoFailure(s) ==> Look(s.disk, path) == During(before, SomeCopied(s.tasks, path), content)
  }

  lemma EventAt(s: State, e: Event, path: Path, content: string)
    requires Enabled(s, e) && !e.Fail? && AllWellFormed(s.tasks)
    requires OnlyCopies(ClosureAll(s.program), path, content) && OpsKnown(ClosureAll(s.program), s.tasks)
    ensures e.Copy? ==> e.i < |s.tasks| && s.tasks[e.i].op.CopyFile?
    ensures Look(Apply(s, e).disk, path) ==
            if e.Copy? && s.tasks[e.i].op.dest == path && Look(s.disk, path) != Some(Folder)
                then Some(Plain(content, true))
            else Look(s.disk, path)
  {
    hide ClosureAll, CanMkdir, CanCopy, CanLeave, Children, Mkdir;
    if e.MakeFolders? {
      var op := s.tasks[e.i].op;
      PrefixOfParent(path, op.dest);
      FoldersAt(s.disk, Parent(op.dest), path);
    } else if e.Copy? {
      var op := s.tasks[e.i].op;
      assert op.dest + [op.dest[|op.dest| - 1]] != op.dest;
      assert op.dest < op.dest + [op.dest[|op.dest| - 1]];
    }
  }

  lemma FoldersAt(d: Disk, p: Path, path: Path)
    ensures Look(Mkdir(d, p), path) == if path <= p then Some(Folder) else Look(d, path)
  {
    hide Look;
  }

  lemma NewlyCopied(s: State, e: Event, path: Path)
    requires Enabled(s, e) && !e.Fail? && AllWellFormed(s.tasks)
    ensures SomeCopied(Apply(s, e).tasks, path) <==>
              SomeCopied(s.tasks, path)
                  || (e.Copy? && e.i < |s.tasks| && s.tasks[e.i].op.CopyFile? && s.tasks[e.i].op.dest == path)
  {
    StepShape(s, e);
    OwnCopied(s, e, path);
    var t := Apply(s, e).tasks;
    hide Enabled, Apply, CopiedTo, AllWellFormed;
    if i :| 0 <= i < |s.tasks| && CopiedTo(s.tasks[i], path) { assert CopiedTo(t[i], path); }
    if i :| 0 <= i < |t| && CopiedTo(t[i], path) {
      if i < |s.tasks| && Who(e) != Some(i) { assert t[i] == s.tasks[i]; }
    }
  }

  lemma OwnCopied(s: State, e: Event, path: Path)
    requires Enabled(s, e) && !e.Fail? && AllWellFormed(s.tasks)
    ensures Who(e).Some? ==> Who(e).value < |s.tasks| <= |Apply(s, e).tasks|
    ensures Who(e).Some? ==>
              (CopiedTo(Apply(s, e).tasks[Who(e).value], path) <==>
                 CopiedTo(s.tasks[Who(e).value], path)
                     || (e.Copy? && s.tasks[e.i].op.CopyFile? && s.tasks[e.i].op.dest == path))
    ensures New(s, e).Some? ==> !CopiedTo(New(s, e).value, path)
  {
    hide Mkdir, Copied, Removed, CanMkdir, CanCopy, CanLeave, Children;
    if Who(e).Some? { assert WellFormed(s.tasks[Who(e).value]); }
  }

  lemma StepPathOk(s: State, e: Event, before: Option<Item>, path: Path, content: string)
    requires Enabled(s, e) && Inv(s) && PathOk(s, before, path, content)
             && OnlyCopies(ClosureAll(s.program), path, content)
    ensures PathOk(Apply(s, e), before, path, content)
  {
    hide Enabled, Apply, OnlyCopies, ClosureAll, SpawnOk, CounterOk, CallerOk, AllWellFormed, Look, SomeCopied;
    if NoFailure(Apply(s, e)) {
      StepNoFailure(s, e);
      hide NoFailure;
      OpsAreKnown(s);
      EventAt(s, e, path, content);
      NewlyCopied(s, e, path);
    }
  }

  lemma {:induction false} RunsKeepPath(program: seq<Op>, workers: nat, d: Disk, events: seq<Event>, path: Path,
                                        content: string)
    requires OnlyCopies(ClosureAll(program), path, content) && After(Start(program, workers, d), events).Some?
    ensures PathOk(After(Start(program, workers, d), events).value, Look(d, path), path, content)
  {
    hide OnlyCopies, Enabled, Apply, ClosureAll, Inv, Measure;
    var s := Start(program, workers, d);
    if events != [] {
      hide PathOk, Start;
      var front := events[..|events| - 1];
      RunsKeepPath(program, workers, d, front, path, content);
      StartOk(program, workers, d);
      RunsKeepInvariant(s, front);
      assert s.program == program by { ProgramOfStart(program, workers, d); }
      StepPathOk(After(s, front).value, events[|events| - 1], Look(d, path), path, content);
    }
  }

  lemma PassedHasCopied(s: State, op: Op)
    requires Inv(s) && Passed(s) && NoFailure(s) && op in ClosureAll(s.program) && op.CopyFile?
    ensures SomeCopied(s.tasks, op.dest)
  {
    PassedAfterWholeTree(s);
    hide ClosureAll, Ops, Inv, NoFailure, Passed;
    SomeTaskHas(s.tasks, op);
    var i :| 0 <= i < |s.tasks| && s.tasks[i].op == op;
    assert CopiedTo(s.tasks[i], op.dest);
  }

  lemma {:induction false} AnyCopied(ops: multiset<Op>, tasks: seq<Task>, path: Path)
    requires OpsKnown(ops, tasks) && SomeCopied(tasks, path)
    ensures exists op :: op in ops && op.dest == path
  {
    var i :| 0 <= i < |tasks| && CopiedTo(tasks[i], path);
    assert tasks[i].op in ops;
  }

  /** What a passed call without failures leaves at such a path. */
  lemma PathAfter(program: seq<Op>, workers: nat, d: Disk, events: seq<Event>, end: State, path: Path, content: string)
    requires OnlyCopies(ClosureAll(program), path, content) && After(Start(program, workers, d), events) == Some(end)
    requires Passed(end) && NoFailure(end)
    ensures Look(end.disk, path) == During(Look(d, path), exists op :: op in program && op.dest == path, content)
  {
    hide OnlyCopies, Inv, After, Passed, NoFailure, Start, Measure, Look, SomeCopied, ClosureAll;
    StartOk(program, workers, d);
    ProgramOfStart(program, workers, d);
    RunsKeepInvariant(Start(program, workers, d), events);
    RunsKeepPath(program, workers, d, events, path, content);
    OpsAreKnown(end);
    if op :| op in program && op.dest == path {
      MemberClosed(program, op);
      assert op.CopyFile? by { CopyAtPath(ClosureAll(program), path, content, op); }
      PassedHasCopied(end, op);
    }
    if SomeCopied(end.tasks, path) {
      AnyCopied(ClosureAll(program), end.tasks, path);
      var op :| op in ClosureAll(program) && op.dest == path;
      InProgram(program, path, content, op);
    }
  }

  lemma CopyAtPath(ops: multiset<Op>, path: Path, content: string, op: Op)
    requires OnlyCopies(ops, path, content) && op in ops && op.dest == path
    ensures op.CopyFile?
  {
  }

  lemma InProgram(program: seq<Op>, path: Path, content: string, op: Op)
    requires OnlyCopies(ClosureAll(program), path, content) && op in ClosureAll(program)
    ensures op in program
  {
    forall o | o in program ensures !o.CopyDir? { MemberClosed(program, o); }
    hide ClosureAll;
    FlatClosure(program, op);
  }

  // ------------------------------------------------------------ one sync

  /** In every interleaving of a successful sync whose old and new paths are not
      above one another, a path to copy is mirrored exactly when no folder was
      there, and any other entry exactly when it was mirrored before. */
  lemma EntryMirroredIff(d: Disk, dest: Path, current: Shas, entries: Shas, source: map<Path, SourceFile>,
                         contents: map<string, string>,
                         program: seq<Op>, workers: nat, events: seq<Event>, end: State, p: Path)
    requires Faithful(entries, source, contents) && ProgramFor(current, entries, source, dest, program)
    requires Antichain(current.Keys + entries.Keys) && p in entries
    requires After(Start(program, workers, d), events) == Some(end) && Passed(end) && NoFailure(end)
    ensures Look(end.disk, dest + p) == Some(Plain(contents[entries[p]], true)) <==>
              if ToCopy(current, entries, p) then Look(d, dest + p) != Some(Folder)
              else Look(d, dest + p) == Some(Plain(contents[entries[p]], true))
  {
    hide After, Start, Passed, NoFailure, Look;
    EntryHasOnlyCopies(dest, current, entries, source, program, p);
    PathAfter(program, workers, d, events, end, dest + p, source[p].content);
    hide ClosureAll, OnlyCopies, Antichain;
    if op :| op in program && op.dest == dest + p {
      TaskPath(dest, op.dest, p);
      assert TaskDue(current, entries, source, dest, op);
    }
  }

  lemma EntryHasOnlyCopies(dest: Path, current: Shas, entries: Shas, source: map<Path, SourceFile>, program: seq<Op>,
                           p: Path)
    requires entries.Keys <= source.Keys && ProgramFor(current, entries, source, dest, program)
    requires Antichain(current.Keys + entries.Keys) && p in entries
    ensures OnlyCopies(ClosureAll(program), dest + p, source[p].content)
  {
    hide ClosureAll;
    forall op | op in ClosureAll(program)
      ensures !op.CopyDir? && op.dest != [] && !(dest + p < op.dest) && !(op.dest < dest + p)
      ensures op.dest == dest + p ==> op.CopyFile? && op.content == source[p].content
    {
      FlatClosure(program, op);
      var q := op.dest[|dest|..];
      assert op.dest == dest + q && q in current.Keys + entries.Keys && p in current.Keys + entries.Keys;
      PathOrder(dest, p, q);
      PathOrder(dest, q, p);
    }
  }

  // ------------------------------------------------------ a run that leaves one

  /** What one file task does to a disk. */
  function OneResult(op: Op, disk: Disk): Disk
    requires !op.CopyDir?
  {
    if op.CopyFile? then Copied(Mkdir(disk, Parent(op.dest)), op) else Removed(disk, op.dest)
  }

  /** A call with one file task that can be done has a run in which it is done. */
  lemma OneTaskRuns(op: Op, workers: nat, disk: Disk) returns (run: seq<Event>, end: State)
    requires workers > 0 && !op.CopyDir?
    requires op.CopyFile? ==> CanMkdir(disk, Parent(op.dest)) && CanCopy(Mkdir(disk, Parent(op.dest)), op)
    ensures After(Start([op], workers, disk), run) == Some(end) && end.caller.Returned? && NoFailure(end)
    ensures end.disk == OneResult(op, disk)
  {
    var start := Start([op], workers, disk);
    run := OneTaskStarts(op, workers, disk);
    var s := State([op], workers, [Task(op, Started)], 1, 0, Asleep, disk);
    var t := s.(tasks := [Task(op, Leaving(false, 0))], disk := OneResult(op, disk));
    var u := t.(tasks := [Task(op, Left(false, 0))], remaining := 0, caller := Woken);
    end := u.(caller := Returned);
    assert !HasFailed(end.tasks[0].phase);
    hide After, Sum, Start, Mkdir, Copied, Removed, CanMkdir, CanCopy, CanLeave, Children;
    if op.CopyFile? {
      var m := s.(tasks := [Task(op, Copying)], disk := Mkdir(disk, Parent(op.dest)));
      run := Extend(start, run, s, MakeFolders(0), m);
      run := Extend(start, run, m, Copy(0), t);
    } else {
      run := Extend(start, run, s, Remove(0), t);
    }
    run := Extend(start, run, t, Finish(0), u);
    run := CallerReturns(start, run, u);
  }

  /** A sync with one task has such a run. */
  lemma OneTaskSync(s: Synced, r: Request, dest: Path, op: Op)
    requires r.entries.Keys <= r.source.Keys && ProgramFor(s.current, r.entries, r.source, dest, [op]) && !op.CopyDir?
    requires op.CopyFile? ==> CanMkdir(s.disk, Parent(op.dest)) && CanCopy(Mkdir(s.disk, Parent(op.dest)), op)
    ensures SyncCall(s, r, dest, Synced(OneResult(op, s.disk), r.entries, s.tracked + r.entries.Keys))
  {
    hide After, Start, NoFailure, CanMkdir, CanCopy, CanLeave, OneResult, ProgramFor;
    var run, end := OneTaskRuns(op, 1, s.disk);
    assert CallRan(s, r, dest, [op], 1, run, end);
  }

  /** Nothing at or below `dest`, and folders above it. */
  ghost predicate Untouched(d: Disk, dest: Path) {
    dest != [] && forall q :: q in d ==> !(dest <= q) && (q < dest ==> d[q] == Folder)
  }

  function FirstCopy(dest: Path, a: string, b: string, f: SourceFile): Op {
    CopyFile(f.content, f.writable, dest + [a, b])
  }

  function LastCopy(dest: Path, a: string, f: SourceFile): Op {
    CopyFile(f.content, f.writable, dest + [a])
  }

  /** The disk after the first copy and its removal. */
  function Emptied(disk: Disk, dest: Path, a: string, b: string, f: SourceFile): Disk {
    OneResult(RemovePath(dest + [a, b]), OneResult(FirstCopy(dest, a, b, f), disk))
  }

  /** Copying `a/b`, then nothing, then `a`: each request on its own keeps its paths
      apart, but the folder left by the first swallows the file of the last. */
  lemma LeftoverSwallows(disk: Disk, dest: Path, a: string, b: string, x: string, y: string, first: SourceFile,
                         last: SourceFile)
    returns (s1: Synced, s2: Synced, s3: Synced)
    requires Untouched(disk, dest)
    ensures Antichain({[a, b]}) && Antichain({}) && Antichain({[a]})
    ensures SyncCall(Synced(disk, map[], {}), Request(map[[a, b] := x], map[[a, b] := first]), dest, s1)
    ensures SyncCall(s1, Request(map[], map[]), dest, s2)
    ensures SyncCall(s2, Request(map[[a] := y], map[[a] := last]), dest, s3)
    ensures Look(s3.disk, dest + [a]) == Some(Folder)
            && Look(s3.disk, dest + [a, a]) == Some(Plain(last.content, last.writable))
  {
    Apart(a, b);
    hide *;
    s1 := FirstSync(disk, dest, a, b, x, first);
    s2 := SecondSync(s1, dest, a, b, x);
    LeftIs(disk, dest, a, b, first);
    Removal(disk, dest, a, b, first);
    s3 := ThirdSync(s2, dest, a, y, last);
  }

  lemma Removal(disk: Disk, dest: Path, a: string, b: string, f: SourceFile)
    ensures Emptied(disk, dest, a, b, f)
            == OneResult(RemovePath(dest + [a, b]), OneResult(FirstCopy(dest, a, b, f), disk))
  {
  }

  lemma Apart(a: string, b: string)
    ensures Antichain({[a, b]}) && Antichain({}) && Antichain({[a]})
  {
  }

  lemma FirstSync(disk: Disk, dest: Path, a: string, b: string, x: string, f: SourceFile) returns (s: Synced)
    requires Untouched(disk, dest)
    ensures SyncCall(Synced(disk, map[], {}), Request(map[[a, b] := x], map[[a, b] := f]), dest, s)
    ensures s.disk == OneResult(FirstCopy(dest, a, b, f), disk) && s.current == map[[a, b] := x]
  {
    var r := Request(map[[a, b] := x], map[[a, b] := f]);
    var op := FirstCopy(dest, a, b, f);
    TaskPath(dest, dest + [a, b], [a, b]);
    assert op in [op] && TaskDue(map[], r.entries, r.source, dest, op);
    FirstCopied(disk, dest, a, b, f);
    hide OneResult, CanMkdir, CanCopy, CanLeave, Untouched, SyncCall;
    OneTaskSync(Synced(disk, map[], {}), r, dest, op);
    s := Synced(OneResult(op, disk), r.entries, {} + r.entries.Keys);
  }

  lemma SecondSync(s: Synced, dest: Path, a: string, b: string, x: string) returns (t: Synced)
    requires s.current == map[[a, b] := x]
    ensures SyncCall(s, Request(map[], map[]), dest, t)
    ensures t.disk == OneResult(RemovePath(dest + [a, b]), s.disk) && t.current == map[]
  {
    var r := Request(map[], map[]);
    var op := RemovePath(dest + [a, b]);
    TaskPath(dest, dest + [a, b], [a, b]);
    assert [a, b] in s.current && ToRemove(s.current, r.entries, [a, b]);
    assert op in [op] && op.dest[|dest|..] == [a, b] && TaskDue(s.current, r.entries, r.source, dest, op);
    hide OneResult, SyncCall;
    OneTaskSync(s, r, dest, op);
    t := Synced(OneResult(op, s.disk), r.entries, s.tracked + r.entries.Keys);
  }

  lemma ThirdSync(s: Synced, dest: Path, a: string, y: string, f: SourceFile) returns (t: Synced)
    requires s.current == map[] && FolderWaits(s.disk, dest, a)
    ensures SyncCall(s, Request(map[[a] := y], map[[a] := f]), dest, t)
    ensures Look(t.disk, dest + [a]) == Some(Folder)
            && Look(t.disk, dest + [a, a]) == Some(Plain(f.content, f.writable))
  {
    var r := Request(map[[a] := y], map[[a] := f]);
    var op := LastCopy(dest, a, f);
    TaskPath(dest, dest + [a], [a]);
    assert op in [op] && TaskDue(s.current, r.entries, r.source, dest, op);
    LastCopied(s.disk, dest, a, f);
    hide OneResult, CanMkdir, CanCopy, CanLeave, SyncCall;
    OneTaskSync(s, r, dest, op);
    t := Synced(OneResult(op, s.disk), r.entries, s.tracked + r.entries.Keys);
  }

  lemma FirstCopied(disk: Disk, dest: Path, a: string, b: string, f: SourceFile)
    requires Untouched(disk, dest)
    ensures var copy := FirstCopy(dest, a, b, f);
            && CanMkdir(disk, Parent(copy.dest)) && CanCopy(Mkdir(disk, Parent(copy.dest)), copy)
            && forall q :: Look(OneResult(copy, disk), q) ==
                 if q == copy.dest then Some(Plain(f.content, true)) else if q <= dest + [a] then Some(Folder)
                     else Look(disk, q)
  {
    var copy := FirstCopy(dest, a, b, f);
    assert Parent(copy.dest) == dest + [a];
    forall q | q <= dest + [a] && q in disk ensures disk[q] == Folder { BelowOrAbove(q, dest, a); }
    assert !(copy.dest <= dest + [a]) && dest <= copy.dest;
    assert Look(Mkdir(disk, dest + [a]), copy.dest) == None;
  }

  lemma BelowOrAbove(q: Path, dest: Path, a: string)
    requires q <= dest + [a]
    ensures q < dest || dest <= q
  {
    if |q| < |dest| {
      assert q == (dest + [a])[..|q|] == dest[..|q|];
    } else {
      assert dest == q[..|dest|];
    }
  }

  /** A folder at `a`, with nothing called `a` in it. */
  ghost predicate FolderWaits(d: Disk, dest: Path, a: string) {
    && (forall k :: 0 <= k <= |dest| ==> Look(d, dest[..k]) == Some(Folder))
    && Look(d, dest + [a]) == Some(Folder) && Look(d, dest + [a, a]) == None
  }

  lemma LeftIs(disk: Disk, dest: Path, a: string, b: string, f: SourceFile)
    requires Untouched(disk, dest)
    ensures FolderWaits(Emptied(disk, dest, a, b, f), dest, a)
  {
    var copy := FirstCopy(dest, a, b, f);
    FirstCopied(disk, dest, a, b, f);
    var d1 := OneResult(copy, disk);
    var d := OneResult(RemovePath(dest + [a, b]), d1);
    assert Look(d1, dest + [a, b]) == Some(Plain(f.content, true));
    RemovedFile(d1, dest + [a, b]);
    hide OneResult, Look;
    forall k | 0 <= k <= |dest| ensures Look(d, dest[..k]) == Some(Folder) {
      assert dest[..k] == (dest + [a])[..k];
    }
    assert dest <= dest + [a, a] && !(dest + [a, a] <= dest + [a]);
    assert Look(disk, dest + [a, a]) == None by { NothingThere(disk, dest, dest + [a, a]); }
  }

  lemma NothingThere(disk: Disk, dest: Path, q: Path)
    requires Untouched(disk, dest) && dest <= q
    ensures Look(disk, q) == None
  {
  }

  lemma RemovedFile(d: Disk, p: Path)
    requires Look(d, p) != Some(Folder)
    ensures forall q :: Look(OneResult(RemovePath(p), d), q) == if q == p then None else Look(d, q)
  {
  }

  lemma LastCopied(d: Disk, dest: Path, a: string, f: SourceFile)
    requires FolderWaits(d, dest, a)
    ensures var again := LastCopy(dest, a, f);
            && CanMkdir(d, Parent(again.dest)) && CanCopy(Mkdir(d, Parent(again.dest)), again)
            && Look(OneResult(again, d), dest + [a]) == Some(Folder)
            && Look(OneResult(again, d), dest + [a, a]) == Some(Plain(f.content, f.writable))
  {
    var again := LastCopy(dest, a, f);
    assert Parent(again.dest) == dest;
    forall q | q in Prefixes(dest) && q in d ensures d[q] == Folder {
      assert q == dest[..|q|] && Look(d, dest[..|q|]) == Some(Folder);
    }
    var m := Mkdir(d, dest);
    assert !(dest + [a] <= dest) && !(dest + [a, a] <= dest);
    assert Look(m, dest + [a]) == Some(Folder) && Look(m, dest + [a, a]) == None;
    assert again.dest + [again.dest[|again.dest| - 1]] == dest + [a, a];
    hide Mkdir;
    LandsInside(m, again);
  }

  lemma LandsInside(d: Disk, op: Op)
    requires op.CopyFile? && op.dest != [] && Look(d, op.dest) == Some(Folder)
    ensures var inside := op.dest + [op.dest[|op.dest| - 1]];
            Look(Copied(d, op), op.dest) == Some(Folder)
                && Look(Copied(d, op), inside) == Some(Plain(op.content, op.writable))
  {
    assert op.dest + [op.dest[|op.dest| - 1]] != op.dest;
  }
}
