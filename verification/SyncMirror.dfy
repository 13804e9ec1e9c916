/** `sync` over file entries: run after run, the destination holds exactly the
    current entries. */
module SyncMirror {
  import opened Text
  import opened SyncFiles
  import opened SyncProtocol
  import opened SyncSafety
  import opened SyncResult

  type Shas = map<Path, string>

  datatype SourceFile = SourceFile(content: string, writable: bool)

  /** What a sync has to do: drop what is no longer listed, copy what is new or
      has another digest. */
  predicate ToRemove(current: Shas, entries: Shas, p: Path) {
    p in current && p !in entries
  }

  predicate ToCopy(current: Shas, entries: Shas, p: Path) {
    p in entries && !(p in current && current[p] == entries[p])
  }

  predicate TaskDue(current: Shas, entries: Shas, source: map<Path, SourceFile>, dest: Path, op: Op)
    requires entries.Keys <= source.Keys
  {
    && dest <= op.dest
    && var p := op.dest[|dest|..];
    match op
    case RemovePath(_) => ToRemove(current, entries, p)
    case CopyFile(content, _, _) => ToCopy(current, entries, p) && content == source[p].content
    case CopyDir(_, _) => false
  }

  /** The submitted tasks, in the arbitrary order of a set and a dictionary. */
  ghost predicate ProgramFor(current: Shas, entries: Shas, source: map<Path, SourceFile>, dest: Path, program: seq<Op>)
    requires entries.Keys <= source.Keys
  {
    && (forall op :: op in program ==> TaskDue(current, entries, source, dest, op))
    && (forall p :: ToRemove(current, entries, p) || ToCopy(current, entries, p) ==>
         exists op :: op in program && op.dest == dest + p)
  }

  /** Equal digests stand for equal content. */
  ghost predicate Faithful(entries: Shas, source: map<Path, SourceFile>, contents: map<string, string>) {
    entries.Keys <= source.Keys
    && forall p :: p in entries ==> entries[p] in contents && source[p].content == contents[entries[p]]
  }

  ghost predicate Antichain(paths: set<Path>) {
    [] !in paths && forall p, q :: p in paths && q in paths ==> !(p < q)
  }

  /** The destination mirrors `current`: listed files have the content of their
      digest, no other file is there but the untracked ones, and folders are
      those above paths tracked so far. */
  ghost predicate Mirrors(d: Disk, dest: Path, current: Shas, tracked: set<Path>, untracked: set<Path>,
                          contents: map<string, string>) {
    && current.Keys <= tracked
    && (forall p :: p in current ==>
         current[p] in contents && Look(d, dest + p) == Some(Plain(contents[current[p]], true)))
    && (forall p :: IsFile(Look(d, dest + p)) ==> p in current || p in untracked)
    && (forall p :: Look(d, dest + p) == Some(Folder) ==> p == [] || exists t :: t in tracked && p < t)
  }

  predicate IsFile(item: Option<Item>) {
    item.Some? && item.value.Plain?
  }

  // ------------------------------------------------------------ one sync

  lemma {:induction false} FlatClosure(program: seq<Op>, op: Op)
    requires forall o :: o in program ==> !o.CopyDir?
    ensures op in ClosureAll(program) <==> op in program
  {
    if program != [] {
      FlatClosure(program[1..], op);
    }
  }

  lemma PathOrder(dest: Path, p: Path, q: Path)
    ensures dest + p < dest + q <==> p < q
    ensures dest + p == dest + q <==> p == q
  {
    assert (dest + p)[|dest|..] == p && (dest + q)[|dest|..] == q;
    if p <= q { assert (dest + q)[..|dest + p|] == dest + q[..|p|]; }
  }

  lemma TaskPath(dest: Path, q: Path, p: Path)
    requires q == dest + p
    ensures dest <= q && q[|dest|..] == p
  {
  }

  /** A task works at a path that is listed now or was before. */
  lemma OpListed(dest: Path, current: Shas, entries: Shas, source: map<Path, SourceFile>, program: seq<Op>, op: Op)
    requires entries.Keys <= source.Keys && ProgramFor(current, entries, source, dest, program)
             && op in ClosureAll(program)
    ensures op in program && !op.CopyDir? && dest <= op.dest && op.dest == dest + op.dest[|dest|..]
    ensures var p := op.dest[|dest|..];
            && (op.RemovePath? ==> ToRemove(current, entries, p))
            && (op.CopyFile? ==> ToCopy(current, entries, p) && op.content == source[p].content)
  {
    hide ClosureAll;
    FlatClosure(program, op);
    assert TaskDue(current, entries, source, dest, op);
  }

  /** Paths not above one another, with no folder at any of them, do not disturb
      each other. */
  lemma CompatibleWhere(d: Disk, dest: Path, current: Shas, entries: Shas, source: map<Path, SourceFile>,
                        program: seq<Op>)
    requires entries.Keys <= source.Keys && Antichain(current.Keys + entries.Keys)
             && ProgramFor(current, entries, source, dest, program)
    requires forall p :: p in current.Keys + entries.Keys ==> Look(d, dest + p) != Some(Folder)
    ensures Compatible(d, ClosureAll(program))
  {
    var (ops, paths) := (ClosureAll(program), current.Keys + entries.Keys);
    hide ClosureAll, Look, ProgramFor;
    forall a, b | a in ops && b in ops
      ensures a.dest == b.dest ==> Intent(a) == Intent(b)
      ensures !b.RemovePath? && a.dest < b.dest ==> a.CopyDir?
      ensures !a.CopyDir? ==> a.dest != [] && Look(d, a.dest) != Some(Folder)
    {
      OpListed(dest, current, entries, source, program, a);
      OpListed(dest, current, entries, source, program, b);
      var p, q := a.dest[|dest|..], b.dest[|dest|..];
      PathOrder(dest, p, q);
      assert p in paths && q in paths && p != [];
    }
  }

  lemma ProgramCompatible(d: Disk, dest: Path, current: Shas, entries: Shas, source: map<Path, SourceFile>,
                          tracked: set<Path>, untracked: set<Path>, contents: map<string, string>, program: seq<Op>)
    requires Mirrors(d, dest, current, tracked, untracked, contents) && Faithful(entries, source, contents)
    requires Antichain(tracked + entries.Keys) && ProgramFor(current, entries, source, dest, program)
    ensures Compatible(d, ClosureAll(program))
  {
    hide Look, Compatible, ClosureAll, ProgramFor, Faithful;
    forall p | p in current.Keys + entries.Keys ensures Look(d, dest + p) != Some(Folder) {
      assert p in tracked + entries.Keys && p != [];
      assert forall t :: t in tracked ==> t in tracked + entries.Keys && !(p < t);
    }
    CompatibleWhere(d, dest, current, entries, source, program)
        by { assert entries.Keys <= source.Keys by { FaithfulKeys(entries, source, contents); } }
  }

  lemma FaithfulKeys(entries: Shas, source: map<Path, SourceFile>, contents: map<string, string>)
    requires Faithful(entries, source, contents)
    ensures entries.Keys <= source.Keys
  {
  }

  lemma SyncedEntry(d: Disk, dest: Path, current: Shas, entries: Shas, source: map<Path, SourceFile>,
                    tracked: set<Path>, untracked: set<Path>, contents: map<string, string>, program: seq<Op>, p: Path)
    requires Mirrors(d, dest, current, tracked, untracked, contents) && Faithful(entries, source, contents)
    requires ProgramFor(current, entries, source, dest, program) && Compatible(d, ClosureAll(program))
    ensures p in entries ==>
              FinalAt(d, ClosureAll(program), dest + p) == Some(Plain(contents[entries[p]], true))
                  || !Antichain(tracked + entries.Keys)
    ensures ToRemove(current, entries, p) ==> FinalAt(d, ClosureAll(program), dest + p) == None
  {
    hide ClosureAll, Compatible, Look, FinalAt, Antichain;
    var ops := ClosureAll(program);
    if ToRemove(current, entries, p) || ToCopy(current, entries, p) {
      var op :| op in program && op.dest == dest + p;
      FlatClosure(program, op);
      TaskPath(dest, op.dest, p);
      FinalAtTarget(d, ops, op);
    } else if p in entries && Antichain(tracked + entries.Keys) {
      KeptEntry(d, dest, current, entries, source, tracked, program, p);
    }
  }

  /** An entry whose digest has not changed keeps its file. */
  lemma KeptEntry(d: Disk, dest: Path, current: Shas, entries: Shas, source: map<Path, SourceFile>, tracked: set<Path>,
                  program: seq<Op>, p: Path)
    requires entries.Keys <= source.Keys && current.Keys <= tracked
    requires ProgramFor(current, entries, source, dest, program) && Antichain(tracked + entries.Keys)
    requires p in entries && p in current && current[p] == entries[p]
    ensures FinalAt(d, ClosureAll(program), dest + p) == Look(d, dest + p)
  {
    hide ClosureAll, Look;
    var ops := ClosureAll(program);
    forall op | op in ops ensures op.dest != dest + p && !(dest + p < op.dest) {
      FlatClosure(program, op);
      var q := op.dest[|dest|..];
      assert op.dest == dest + q && q in tracked + entries.Keys && p in tracked + entries.Keys;
      PathOrder(dest, p, q);
    }
  }

  /** A file at the end was copied by the sync or was there and not listed for
      removal; a folder is above a path tracked so far. */
  lemma OtherPaths(d: Disk, dest: Path, current: Shas, entries: Shas, source: map<Path, SourceFile>,
                   tracked: set<Path>, untracked: set<Path>, contents: map<string, string>, program: seq<Op>, p: Path)
    requires Mirrors(d, dest, current, tracked, untracked, contents) && Faithful(entries, source, contents)
    requires ProgramFor(current, entries, source, dest, program)
    requires forall r :: ToRemove(current, entries, r) ==> FinalAt(d, ClosureAll(program), dest + r) == None
    ensures IsFile(FinalAt(d, ClosureAll(program), dest + p)) ==> p in entries || p in untracked
    ensures FinalAt(d, ClosureAll(program), dest + p) == Some(Folder) ==>
              p == [] || exists t :: t in tracked + entries.Keys && p < t
  {
    hide ClosureAll, Look;
    var ops := ClosureAll(program);
    var item := FinalAt(d, ops, dest + p);
    if IsTarget(ops, dest + p) {
      var op :| op in ops && op.dest == dest + p && item == Intent(op);
      FlatClosure(program, op);
      TaskPath(dest, op.dest, p);
      assert TaskDue(current, entries, source, dest, op);
      assert Intent(op) != Some(Folder);
    } else if item != Look(d, dest + p) {
      var op :| op in ops && !op.RemovePath? && dest + p < op.dest;
      FlatClosure(program, op);
      var q := op.dest[|dest|..];
      assert op.dest == dest + q && q in tracked + entries.Keys;
      PathOrder(dest, p, q);
    } else {
      assert ToRemove(current, entries, p) <==> p in current && p !in entries;
      if item == Some(Folder) && p != [] {
        var t :| t in tracked && p < t;
        assert t in tracked + entries.Keys;
      }
    }
  }

  /** A sync that passes without a failed task mirrors the new entries, in every
      interleaving of its pool. */
  lemma SyncMirrorsEntries(d: Disk, dest: Path, current: Shas, entries: Shas, source: map<Path, SourceFile>,
                           tracked: set<Path>, untracked: set<Path>, contents: map<string, string>,
                           program: seq<Op>, workers: nat, events: seq<Event>, end: State)
    requires Mirrors(d, dest, current, tracked, untracked, contents) && Faithful(entries, source, contents)
    requires Antichain(tracked + entries.Keys) && ProgramFor(current, entries, source, dest, program)
    requires After(Start(program, workers, d), events) == Some(end) && Passed(end) && NoFailure(end)
    ensures Mirrors(end.disk, dest, entries, tracked + entries.Keys, untracked, contents)
  {
    hide After, Start, Passed, NoFailure, ClosureAll, FinalAt, Look, Compatible, ProgramFor, Antichain;
    ProgramCompatible(d, dest, current, entries, source, tracked, untracked, contents, program);
    EveryInterleavingAgrees(program, workers, d, events, end);
    var ops := ClosureAll(program);
    forall p ensures p in entries ==> FinalAt(d, ops, dest + p) == Some(Plain(contents[entries[p]], true))
             ensures ToRemove(current, entries, p) ==> FinalAt(d, ops, dest + p) == None
    {
      SyncedEntry(d, dest, current, entries, source, tracked, untracked, contents, program, p);
    }
    forall p ensures IsFile(Look(end.disk, dest + p)) ==> p in entries || p in untracked
             ensures Look(end.disk, dest + p) == Some(Folder) ==>
                       p == [] || exists t :: t in tracked + entries.Keys && p < t
    {
      OtherPaths(d, dest, current, entries, source, tracked, untracked, contents, program, p);
    }
  }

  lemma SameRecord(current: Shas, entries: Shas)
    requires forall p :: !ToRemove(current, entries, p) && !ToCopy(current, entries, p)
    ensures current == entries
  {
    assert forall p :: p in entries ==> !ToCopy(current, entries, p);
    assert forall p :: p in current ==> !ToRemove(current, entries, p);
    assert current.Keys == entries.Keys;
  }

  /** Nothing to do: the old entries are the new ones. */
  lemma NothingToDo(d: Disk, dest: Path, current: Shas, entries: Shas,
                    tracked: set<Path>, untracked: set<Path>, contents: map<string, string>)
    requires Mirrors(d, dest, current, tracked, untracked, contents)
    requires forall p :: !ToRemove(current, entries, p) && !ToCopy(current, entries, p)
    ensures current == entries
    ensures Mirrors(d, dest, entries, tracked + entries.Keys, untracked, contents)
  {
    SameRecord(current, entries);
    assert tracked + entries.Keys == tracked;
  }

  // ------------------------------------------------------ runs of requests

  /** What a syncer and its destination hold between two requests. */
  datatype Synced = Synced(disk: Disk, current: Shas, tracked: set<Path>)

  datatype Request = Request(entries: Shas, source: map<Path, SourceFile>)

  /** A `sync` call that returned, with no task failed, in some interleaving. */
  ghost predicate SyncCall(s: Synced, r: Request, dest: Path, s': Synced)
    requires r.entries.Keys <= r.source.Keys
  {
    && s'.current == r.entries && s'.tracked == s.tracked + r.entries.Keys
    && exists program, workers, events, end ::
         CallRan(s, r, dest, program, workers, events, end) && s'.disk == end.disk
  }

  ghost predicate CallRan(s: Synced, r: Request, dest: Path, program: seq<Op>, workers: nat, events: seq<Event>,
                          end: State)
    requires r.entries.Keys <= r.source.Keys
  {
    && ProgramFor(s.current, r.entries, r.source, dest, program)
    && After(Start(program, workers, s.disk), events) == Some(end)
    && end.caller.Returned? && NoFailure(end)
  }

  /** Every path asked for so far, and the untracked ones, kept apart. */
  ghost predicate GoodRequest(s: Synced, r: Request, contents: map<string, string>) {
    Faithful(r.entries, r.source, contents) && Antichain(s.tracked + r.entries.Keys)
  }

  lemma CallMirrors(s: Synced, r: Request, dest: Path, s': Synced, untracked: set<Path>, contents: map<string, string>)
    requires GoodRequest(s, r, contents) && SyncCall(s, r, dest, s')
    requires Mirrors(s.disk, dest, s.current, s.tracked, untracked, contents)
    ensures Mirrors(s'.disk, dest, s'.current, s'.tracked, untracked, contents)
  {
    assert r.entries.Keys <= r.source.Keys;
    hide After, Start, NoFailure, ProgramFor, Faithful, Antichain, Mirrors;
    var program, workers, events, end :| CallRan(s, r, dest, program, workers, events, end) && s'.disk == end.disk;
    assert Passed(end);
    SyncMirrorsEntries(s.disk, dest, s.current, r.entries, r.source, s.tracked, untracked, contents, program, workers,
        events, end);
  }

  /** Run after run of successful syncs, the destination's tracked files are
      exactly the entries of the last request, with the content of its source. */
  lemma {:induction false} RunsMirror(states: seq<Synced>, requests: seq<Request>, dest: Path, untracked: set<Path>,
                                      contents: map<string, string>)
    requires |states| == |requests| + 1
    requires Mirrors(states[0].disk, dest, states[0].current, states[0].tracked, untracked, contents)
    requires forall i :: 0 <= i < |requests| ==>
               GoodRequest(states[i], requests[i], contents) && SyncCall(states[i], requests[i], dest, states[i + 1])
    ensures var last := states[|requests|]; Mirrors(last.disk, dest, last.current, last.tracked, untracked, contents)
    ensures requests != [] ==> states[|requests|].current == requests[|requests| - 1].entries
    decreases |requests|
  {
    hide Mirrors, GoodRequest, CallRan, Faithful;
    if requests != [] {
      var n := |requests| - 1;
      RunsMirror(states[..n + 1], requests[..n], dest, untracked, contents);
      CallMirrors(states[n], requests[n], dest, states[n + 1], untracked, contents);
    }
  }
}
