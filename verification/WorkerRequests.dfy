/** One request of the persistent worker, on disk: the wipe of a worker without
    digests, the sync, and the file it writes last. */
module WorkerRequests {
  import opened Text
  import opened SyncFiles
  import opened SyncProtocol
  import opened SyncSafety
  import opened SyncResult
  import opened SyncMirror
  import opened SyncLeftovers

  /** The worker's digests, the syncer's record and the disk. */
  datatype World = World(disk: Disk, digests: Shas, current: Shas)

  /** How a sync ran: its tasks and the steps of its threads. */
  datatype Call = Call(program: seq<Op>, workers: nat, events: seq<Event>, end: State)

  const INFO := "_bazel_worker_request_info.json"

  /** Where the sync starts: a worker without digests has wiped the destination. */
  function Begun(w: World, dest: Path): Disk {
    if w.digests == map[] then Wiped(w.disk, dest) else w.disk
  }

  /** `open(request_info_path, "w")` succeeds. */
  predicate CanOpen(d: Disk, dest: Path) {
    Look(d, dest) == Some(Folder) && Look(d, dest + [INFO]) != Some(Folder)
  }

  function WithInfo(d: Disk, dest: Path, info: string): Disk {
    d[dest + [INFO] := Plain(info, true)]
  }

  /** A request as far as it gets: `done` says that nothing raised. */
  ghost predicate Handles(w: World, r: Request, dest: Path, info: string, call: Call, w': World, done: bool)
    requires r.entries.Keys <= r.source.Keys
  {
    && ProgramFor(w.current, r.entries, r.source, dest, call.program)
    && After(Start(call.program, call.workers, Begun(w, dest)), call.events) == Some(call.end)
    && w'.digests == r.entries && w'.current == (if call.end.caller.Returned? then r.entries else w.current)
    && done == (call.end.caller.Returned? && CanOpen(call.end.disk, dest))
    && w'.disk == if done then WithInfo(call.end.disk, dest, info) else call.end.disk
  }

  // ------------------------------------------------- what no task comes near

  /** No task works at `path`, above it or below it. */
  ghost predicate AwayFrom(ops: multiset<Op>, path: Path) {
    forall op :: op in ops ==> !op.CopyDir? && op.dest != [] && !(op.dest <= path) && !(path <= op.dest)
  }

  lemma StepKeepsAway(s: State, e: Event, ops: multiset<Op>, path: Path)
    requires Enabled(s, e) && OpsKnown(ops, s.tasks) && AwayFrom(ops, path)
    ensures Look(Apply(s, e).disk, path) == Look(s.disk, path)
  {
    hide CanMkdir, CanCopy, Children, Sum, Mkdir;
    if e.MakeFolders? {
      var op := s.tasks[e.i].op;
      assert op in ops;
      ParentIsAbove(op.dest);
      FoldersAt(s.disk, Parent(op.dest), path);
    } else if e.Copy? {
      var op := s.tasks[e.i].op;
      assert op in ops && op.dest <= Landing(s.disk, op.dest);
    } else if e.Remove? {
      assert s.tasks[e.i].op in ops;
    } else if e.Fail? {
      assert s.tasks[e.i].op in ops;
      LeftAlone(s.disk, e.left, s.tasks[e.i].op, path);
    }
  }

  lemma ParentIsAbove(p: Path)
    requires p != []
    ensures Parent(p) < p
  {
  }

  /** A failed task changes nothing that is neither above its path nor below. */
  lemma LeftAlone(before: Disk, left: Disk, op: Op, path: Path)
    requires CanLeave(before, left, op) && !(op.dest <= path) && !(path <= op.dest)
    ensures Look(left, path) == Look(before, path)
  {
    if path in before.Keys + left.Keys {}
  }

  lemma {:induction false} RunsKeepAway(program: seq<Op>, workers: nat, d: Disk, events: seq<Event>, path: Path)
    requires AwayFrom(ClosureAll(program), path) && After(Start(program, workers, d), events).Some?
    ensures Look(After(Start(program, workers, d), events).value.disk, path) == Look(d, path)
  {
    hide AwayFrom, Enabled, Apply, ClosureAll, Inv, Measure;
    var s := Start(program, workers, d);
    if events != [] {
      hide Start;
      var front := events[..|events| - 1];
      RunsKeepAway(program, workers, d, front, path);
      StartOk(program, workers, d);
      RunsKeepInvariant(s, front);
      ProgramOfStart(program, workers, d);
      OpsAreKnown(After(s, front).value);
      StepKeepsAway(After(s, front).value, events[|events| - 1], ClosureAll(program), path);
    }
  }

  // ---------------------------------------------------------------- folders

  /** Below the destination folders are above tracked paths only. */
  ghost predicate FoldersOk(d: Disk, dest: Path, tracked: set<Path>) {
    forall p :: Look(d, dest + p) == Some(Folder) ==> p == [] || exists t :: t in tracked && p < t
  }

  ghost predicate FileOps(ops: multiset<Op>, dest: Path, tracked: set<Path>) {
    forall op :: op in ops ==> !op.CopyDir? && op.dest != [] && dest <= op.dest && op.dest[|dest|..] in tracked
  }

  lemma AboveTracked(dest: Path, tracked: set<Path>, p: Path, q: Path)
    requires dest + p < q && dest <= q && q[|dest|..] in tracked
    ensures exists t :: t in tracked && p < t
  {
    var t := q[|dest|..];
    assert q == dest + t;
    PathOrder(dest, p, t);
  }

  lemma StepKeepsFolders(s: State, e: Event, ops: multiset<Op>, dest: Path, tracked: set<Path>)
    requires Enabled(s, e) && OpsKnown(ops, s.tasks) && FileOps(ops, dest, tracked) && FoldersOk(s.disk, dest, tracked)
    ensures FoldersOk(Apply(s, e).disk, dest, tracked)
  {
    hide CanMkdir, CanCopy, Children, Sum, Mkdir;
    var d := Apply(s, e).disk;
    forall p | Look(d, dest + p) == Some(Folder) ensures p == [] || exists t :: t in tracked && p < t {
      if Look(s.disk, dest + p) != Some(Folder) {
        assert e.MakeFolders? || e.Fail?;
        var op := s.tasks[e.i].op;
        assert op in ops;
        ParentIsAbove(op.dest);
        if e.MakeFolders? { FoldersAt(s.disk, Parent(op.dest), dest + p); } else { assert dest + p in e.left.Keys; }
        assert dest + p < op.dest;
        AboveTracked(dest, tracked, p, op.dest);
      }
    }
  }

  lemma {:induction false} RunsKeepFolders(program: seq<Op>, workers: nat, d: Disk, events: seq<Event>, dest: Path,
                                           tracked: set<Path>)
    requires FileOps(ClosureAll(program), dest, tracked) && After(Start(program, workers, d), events).Some?
             && FoldersOk(d, dest, tracked)
    ensures FoldersOk(After(Start(program, workers, d), events).value.disk, dest, tracked)
  {
    hide FileOps, FoldersOk, Enabled, Apply, ClosureAll, Inv, Measure;
    var s := Start(program, workers, d);
    if events != [] {
      var front := events[..|events| - 1];
      RunsKeepFolders(program, workers, d, front, dest, tracked);
      StartOk(program, workers, d);
      RunsKeepInvariant(s, front);
      ProgramOfStart(program, workers, d);
      hide Start;
      OpsAreKnown(After(s, front).value);
      StepKeepsFolders(After(s, front).value, events[|events| - 1], ClosureAll(program), dest, tracked);
    }
  }

  // -------------------------------------------------------------- one request

  ghost predicate IsMirrored(d: Disk, dest: Path, p: Path, content: string) {
    Look(d, dest + p) == Some(Plain(content, true))
  }

  /** The file written last is none of the listed ones and in none of them. */
  ghost predicate InfoApart(paths: set<Path>) {
    forall p :: p in paths ==> !([INFO] <= p)
  }

  lemma InfoIsElsewhere(d: Disk, dest: Path, info: string, p: Path)
    requires !([INFO] <= p)
    ensures Look(WithInfo(d, dest, info), dest + p) == Look(d, dest + p)
  {
    PathOrder(dest, p, [INFO]);
  }

  /** A path that the sync does not work at is as it was. */
  lemma UnlistedStays(w: World, r: Request, dest: Path, info: string, call: Call, w': World, done: bool, p: Path)
    requires r.entries.Keys <= r.source.Keys && Handles(w, r, dest, info, call, w', done)
    requires Antichain(w.current.Keys + r.entries.Keys) && p in w.current.Keys + r.entries.Keys && !([INFO] <= p)
    requires !ToCopy(w.current, r.entries, p) && !ToRemove(w.current, r.entries, p)
    ensures Look(w'.disk, dest + p) == Look(Begun(w, dest), dest + p)
  {
    var ops := ClosureAll(call.program);
    hide ClosureAll, ProgramFor, After, Start, Look, Begun, WithInfo, CanOpen;
    forall op | op in ops ensures !op.CopyDir? && op.dest != [] && !(op.dest <= dest + p) && !(dest + p <= op.dest) {
      OpListed(dest, w.current, r.entries, r.source, call.program, op);
      var q := op.dest[|dest|..];
      PathOrder(dest, p, q);
      PathOrder(dest, q, p);
      SamePath(dest, p, q);
      assert q in w.current.Keys + r.entries.Keys;
    }
    RunsKeepAway(call.program, call.workers, Begun(w, dest), call.events, dest + p);
    InfoIsElsewhere(call.end.disk, dest, info, p);
  }

  lemma SamePath(dest: Path, p: Path, q: Path)
    ensures dest + p <= dest + q ==> p <= q
  {
    assert (dest + p)[|dest|..] == p && (dest + q)[|dest|..] == q;
    if dest + p <= dest + q { assert p == (dest + q)[|dest|..|dest| + |p|] == q[..|p|]; }
  }

  /** After a request whose sync returned without a failed task, a listed file that
      was to be copied is mirrored exactly when no folder was in its place, and any
      other exactly when it was mirrored before and has not been wiped. */
  lemma RequestMirrorsIff(w: World, r: Request, dest: Path, info: string, call: Call, w': World, done: bool,
                          contents: map<string, string>, p: Path)
    requires Faithful(r.entries, r.source, contents) && Handles(w, r, dest, info, call, w', done)
    requires Antichain(w.current.Keys + r.entries.Keys) && p in r.entries && !([INFO] <= p)
    requires call.end.caller.Returned? && NoFailure(call.end)
    ensures IsMirrored(w'.disk, dest, p, contents[r.entries[p]]) <==>
              if ToCopy(w.current, r.entries, p) then w.digests == map[] || Look(w.disk, dest + p) != Some(Folder)
              else w.digests != map[] && IsMirrored(w.disk, dest, p, contents[r.entries[p]])
  {
    var d := Begun(w, dest);
    assert dest <= dest + p && Passed(call.end);
    assert w.digests == map[] ==> Look(d, dest + p) == None;
    hide After, Start, Passed, NoFailure, ProgramFor, Antichain, CanOpen, WithInfo;
    EntryMirroredIff(d, dest, w.current, r.entries, r.source, contents, call.program, call.workers, call.events,
        call.end, p);
    InfoIsElsewhere(call.end.disk, dest, info, p);
  }

  /** Such a request goes through on a wiped destination exactly when there is
      something to copy: otherwise the folder of its last file is missing. */
  lemma WipedGoesThroughIff(w: World, r: Request, dest: Path, info: string, call: Call, w': World, done: bool)
    requires r.entries.Keys <= r.source.Keys && Handles(w, r, dest, info, call, w', done) && w.digests == map[]
    requires Antichain(w.current.Keys + r.entries.Keys) && InfoApart(w.current.Keys + r.entries.Keys)
    requires call.end.caller.Returned? && NoFailure(call.end)
    ensures done <==> exists p :: ToCopy(w.current, r.entries, p)
  {
    var (d, ops) := (Begun(w, dest), ClosureAll(call.program));
    assert Passed(call.end) && forall q :: dest <= q ==> Look(d, q) == None;
    hide After, Start, Passed, NoFailure, ClosureAll, Compatible, FinalAt, Begun;
    CompatibleWhere(d, dest, w.current, r.entries, r.source, call.program);
    EveryInterleavingAgrees(call.program, call.workers, d, call.events, call.end);
    WipedFolder(d, dest, w.current, r.entries, r.source, call.program);
    WipedInfo(d, dest, w.current, r.entries, r.source, call.program);
  }

  lemma WipedFolder(d: Disk, dest: Path, current: Shas, entries: Shas, source: map<Path, SourceFile>, program: seq<Op>)
    requires entries.Keys <= source.Keys && Antichain(current.Keys + entries.Keys)
             && ProgramFor(current, entries, source, dest, program)
    requires Look(d, dest) == None
    ensures FinalAt(d, ClosureAll(program), dest) == Some(Folder) <==> exists p :: ToCopy(current, entries, p)
  {
    var ops := ClosureAll(program);
    hide ClosureAll;
    forall op | op in ops ensures op.dest != dest {
      OpListed(dest, current, entries, source, program, op);
      assert op.dest[|dest|..] in current.Keys + entries.Keys && op.dest[|dest|..] != [];
    }
    if op :| op in ops && !op.RemovePath? && dest < op.dest {
      OpListed(dest, current, entries, source, program, op);
      assert ToCopy(current, entries, op.dest[|dest|..]);
    }
    if p :| ToCopy(current, entries, p) {
      var op :| op in program && op.dest == dest + p;
      FlatOps(current, entries, source, dest, program, op);
      OpListed(dest, current, entries, source, program, op);
      assert op.dest[|dest|..] == p && p != [] && dest < op.dest;
      assert IsAbove(ops, dest);
    }
  }

  lemma FlatOps(current: Shas, entries: Shas, source: map<Path, SourceFile>, dest: Path, program: seq<Op>, op: Op)
    requires entries.Keys <= source.Keys && ProgramFor(current, entries, source, dest, program) && op in program
    ensures op in ClosureAll(program)
  {
    MemberClosed(program, op);
  }

  lemma WipedInfo(d: Disk, dest: Path, current: Shas, entries: Shas, source: map<Path, SourceFile>, program: seq<Op>)
    requires entries.Keys <= source.Keys && InfoApart(current.Keys + entries.Keys)
             && ProgramFor(current, entries, source, dest, program)
    requires Look(d, dest + [INFO]) == None
    ensures FinalAt(d, ClosureAll(program), dest + [INFO]) != Some(Folder)
  {
    var ops := ClosureAll(program);
    hide ClosureAll;
    forall op | op in ops ensures !(dest + [INFO] <= op.dest) {
      OpListed(dest, current, entries, source, program, op);
      SamePath(dest, [INFO], op.dest[|dest|..]);
      assert op.dest[|dest|..] in current.Keys + entries.Keys;
    }
    assert !IsTarget(ops, dest + [INFO]) && !IsAbove(ops, dest + [INFO]);
  }
}
