/** That the files known to be safe after raised requests are all that are: for every
    other one some run of the same requests loses it. */
module WorkerLosses {
  import opened Text
  import opened SyncFiles
  import opened SyncProtocol
  import opened SyncSafety
  import opened SyncMirror
  import opened SyncLeftovers
  import opened SyncTurns
  import opened WorkerRequests
  import opened WorkerDigests
  import opened WorkerRuns

  // ------------------------------------------------------------- tidy disks

  /** Folders down to the destination; in it files at tracked paths, folders above
      those, and the file written last. */
  ghost predicate IsTidy(d: Disk, dest: Path, tracked: set<Path>) {
    && (forall q :: q in d && q <= dest ==> d[q] == Folder)
    && FoldersOk(d, dest, tracked)
    && (forall r :: IsFile(Look(d, dest + r)) ==> r in tracked || r == [INFO])
  }

  lemma TidyPart(d: Disk, e: Disk, dest: Path, tracked: set<Path>)
    requires IsTidy(d, dest, tracked) && forall q :: q in e ==> q in d && e[q] == d[q]
    ensures IsTidy(e, dest, tracked)
  {
    forall r | Look(e, dest + r).Some? ensures Look(d, dest + r) == Look(e, dest + r) {}
  }

  lemma TidyFile(d: Disk, dest: Path, tracked: set<Path>, t: Path, item: Item)
    requires IsTidy(d, dest, tracked) && t != [] && (t in tracked || t == [INFO]) && item.Plain?
    ensures IsTidy(d[dest + t := item], dest, tracked)
  {
    var e := d[dest + t := item];
    forall q | q in e && q <= dest ensures e[q] == Folder { assert q != dest + t; }
    forall r | Look(e, dest + r) == Some(Folder) ensures r == [] || exists t :: t in tracked && r < t {
      assert Look(d, dest + r) == Some(Folder);
    }
    forall r | IsFile(Look(e, dest + r)) ensures r in tracked || r == [INFO] {
      PathOrder(dest, r, t);
      if r != t { assert Look(d, dest + r) == Look(e, dest + r); }
    }
  }

  /** In the folders above a tracked path nothing is in the way. */
  lemma TidyAbove(d: Disk, dest: Path, tracked: set<Path>, t: Path)
    requires IsTidy(d, dest, tracked) && Antichain(tracked) && InfoApart(tracked) && t in tracked
    ensures CanMkdir(d, Parent(dest + t)) && IsTidy(Mkdir(d, Parent(dest + t)), dest, tracked)
    ensures Look(Mkdir(d, Parent(dest + t)), dest + t) != Some(Folder)
  {
    assert t != [] && Parent(dest + t) == dest + t[..|t| - 1];
    NothingInTheWay(d, dest, tracked, t);
    TidyFolders(d, dest, tracked, t, Parent(dest + t));
    assert !(dest + t <= Parent(dest + t));
    assert Look(d, dest + t) == Some(Folder) ==> exists u :: u in tracked && t < u;
    hide IsTidy, CanMkdir;
  }

  lemma NothingInTheWay(d: Disk, dest: Path, tracked: set<Path>, t: Path)
    requires IsTidy(d, dest, tracked) && Antichain(tracked) && InfoApart(tracked) && t in tracked
    ensures forall q :: q < dest + t && q in d ==> d[q] == Folder
  {
    forall q | q < dest + t && q in d ensures d[q] == Folder {
      if !(q <= dest) {
        var r := q[|dest|..];
        assert q == dest + r && r < t;
        assert d[q] == Folder || IsFile(Look(d, dest + r));
      }
    }
  }

  lemma TidyFolders(d: Disk, dest: Path, tracked: set<Path>, t: Path, above: Path)
    requires IsTidy(d, dest, tracked) && t in tracked && t != [] && above == dest + t[..|t| - 1]
    ensures IsTidy(Mkdir(d, above), dest, tracked)
  {
    var e := Mkdir(d, above);
    forall q | q in e && q <= dest ensures e[q] == Folder { assert Look(e, q) == Some(e[q]); }
    forall r | Look(e, dest + r) == Some(Folder) ensures r == [] || exists u :: u in tracked && r < u {
      if dest + r <= above { SamePath(dest, r, t[..|t| - 1]); assert r < t; }
    }
    forall r | IsFile(Look(e, dest + r)) ensures r in tracked || r == [INFO] {}
  }

  lemma TidyCopy(d: Disk, dest: Path, tracked: set<Path>, op: Op, t: Path)
    requires IsTidy(d, dest, tracked) && Antichain(tracked) && InfoApart(tracked) && t in tracked && op.CopyFile?
             && op.dest == dest + t
    ensures IsTurn(op, d, OneResult(op, d), false) && IsTidy(OneResult(op, d), dest, tracked)
  {
    TidyAbove(d, dest, tracked, t);
    TidyFile(Mkdir(d, Parent(op.dest)), dest, tracked, t, Plain(op.content, true));
    hide Mkdir, CanMkdir, IsTidy;
  }

  lemma TidyRemove(d: Disk, dest: Path, tracked: set<Path>, op: Op)
    requires IsTidy(d, dest, tracked) && op.RemovePath?
    ensures IsTurn(op, d, OneResult(op, d), false) && IsTidy(OneResult(op, d), dest, tracked)
  {
    TidyPart(d, Removed(d, op.dest), dest, tracked);
  }

  // ------------------------------------------------------- the disk of a call

  /** What a task that fails makes of the file at `target`, if that is its own: it
      leaves something else there, or nothing. */
  function Damaged(op: Op, d: Disk, target: Path, torn: string): Disk {
    if op.dest != target then d
    else if op.CopyFile? then d[target := Plain(torn, true)]
    else d - {target}
  }

  function Next(op: Op, d: Disk, fails: bool, target: Path, torn: string): Disk {
    if fails then Damaged(op, d, target, torn) else if op.CopyDir? then d else OneResult(op, d)
  }

  /** The disks between the tasks of a program. */
  function Disks(program: seq<Op>, d: Disk, fails: bool, target: Path, torn: string): (disks: seq<Disk>)
    ensures |disks| == |program| + 1 && disks[0] == d
  {
    if program == [] then [d]
        else [d] + Disks(program[1..], Next(program[0], d, fails, target, torn), fails, target, torn)
  }

  ghost predicate IsFileOp(op: Op, dest: Path, tracked: set<Path>) {
    !op.CopyDir? && dest <= op.dest && op.dest[|dest|..] in tracked
  }

  lemma NextIsTurn(op: Op, d: Disk, dest: Path, tracked: set<Path>, fails: bool, target: Path, torn: string)
    requires IsTidy(d, dest, tracked) && Antichain(tracked) && InfoApart(tracked) && IsFileOp(op, dest, tracked)
    ensures IsTurn(op, d, Next(op, d, fails, target, torn), fails)
            && IsTidy(Next(op, d, fails, target, torn), dest, tracked)
  {
    var t := op.dest[|dest|..];
    assert op.dest == dest + t;
    hide IsTidy, OneResult, CanMkdir, CanCopy, Mkdir, InfoApart;
    if !fails {
      if op.CopyFile? { TidyCopy(d, dest, tracked, op, t); } else { TidyRemove(d, dest, tracked, op); }
    } else if op.dest != target {
      CanLeaveAlone(d, op);
    } else if op.CopyFile? {
      TidyFile(d, dest, tracked, t, Plain(torn, true));
    } else {
      TidyPart(d, d - {target}, dest, tracked);
    }
  }

  lemma {:induction false} DisksAreTurns(program: seq<Op>, d: Disk, dest: Path, tracked: set<Path>, fails: bool,
                                         target: Path, torn: string)
    requires IsTidy(d, dest, tracked) && Antichain(tracked) && InfoApart(tracked)
    requires forall op :: op in program ==> IsFileOp(op, dest, tracked)
    ensures var disks := Disks(program, d, fails, target, torn);
            AreTurns(program, disks, fails) && IsTidy(disks[|program|], dest, tracked)
  {
    if program != [] {
      var e := Next(program[0], d, fails, target, torn);
      assert program[0] in program && program == [program[0]] + program[1..];
      NextIsTurn(program[0], d, dest, tracked, fails, target, torn);
      DisksAreTurns(program[1..], e, dest, tracked, fails, target, torn);
      hide IsTidy, IsTurn, Next, IsFileOp;
    }
  }

  /** A call that fails does not repair the file, and damages it if it works there. */
  lemma {:induction false} FailedBadly(program: seq<Op>, d: Disk, target: Path, torn: string, content: string)
    requires torn != content
    requires Look(d, target) != Some(Plain(content, true)) || exists op :: op in program && op.dest == target
    ensures Look(Disks(program, d, true, target, torn)[|program|], target) != Some(Plain(content, true))
  {
    if program != [] {
      var e := Next(program[0], d, true, target, torn);
      if program[0].dest != target {
        if op :| op in program && op.dest == target { assert op in program[1..]; }
      }
      FailedBadly(program[1..], e, target, torn, content);
    }
  }

  // ----------------------------------------------------------- one request

  predicate IsDue(current: Shas, entries: Shas, p: Path) {
    ToCopy(current, entries, p) || ToRemove(current, entries, p)
  }

  function OpAt(entries: Shas, source: map<Path, SourceFile>, dest: Path, p: Path): Op
    requires entries.Keys <= source.Keys
  {
    if p in entries then CopyFile(source[p].content, source[p].writable, dest + p) else RemovePath(dest + p)
  }

  lemma {:induction false} PathsOf(s: set<Path>) returns (ps: seq<Path>)
    ensures forall p :: p in ps <==> p in s
  {
    if s == {} {
      ps := [];
    } else {
      var p :| p in s;
      var rest := PathsOf(s - {p});
      ps := [p] + rest;
    }
  }

  lemma ProgramOf(current: Shas, entries: Shas, source: map<Path, SourceFile>, dest: Path) returns (program: seq<Op>)
    requires entries.Keys <= source.Keys
    ensures ProgramFor(current, entries, source, dest, program)
    ensures program == [] ==> forall p :: !IsDue(current, entries, p)
  {
    var ps := PathsOf(set p | p in current.Keys + entries.Keys && IsDue(current, entries, p));
    program := seq(|ps|, i requires 0 <= i < |ps| => OpAt(entries, source, dest, ps[i]));
    forall op | op in program ensures TaskDue(current, entries, source, dest, op) {
      var i :| 0 <= i < |program| && program[i] == op;
      assert ps[i] in ps;
      TaskPath(dest, op.dest, ps[i]);
    }
    forall p | ToRemove(current, entries, p) || ToCopy(current, entries, p)
      ensures exists op :: op in program && op.dest == dest + p {
      assert p in current.Keys + entries.Keys && p in ps;
      var i :| 0 <= i < |ps| && ps[i] == p;
      assert program[i] in program;
    }
  }

  /** The files that a request lists, with the contents of their digests. */
  function Listing(entries: Shas, contents: map<string, string>): Request
    requires forall p :: p in entries ==> entries[p] in contents
  {
    Request(entries, map p | p in entries :: SourceFile(contents[entries[p]], true))
  }

  ghost predicate CanList(entries: Shas, tracked: set<Path>, contents: map<string, string>) {
    entries.Keys <= tracked && forall p :: p in entries ==> entries[p] in contents
  }

  lemma ProgramWorks(current: Shas, r: Request, dest: Path, program: seq<Op>, tracked: set<Path>)
    requires r.entries.Keys <= r.source.Keys && ProgramFor(current, r.entries, r.source, dest, program)
    requires current.Keys <= tracked && r.entries.Keys <= tracked
    ensures forall op :: op in program ==> IsFileOp(op, dest, tracked)
  {
    forall op | op in program ensures IsFileOp(op, dest, tracked) {
      assert TaskDue(current, r.entries, r.source, dest, op);
    }
  }

  lemma BegunTidy(w: World, dest: Path, tracked: set<Path>)
    requires IsTidy(w.disk, dest, tracked)
    ensures IsTidy(Begun(w, dest), dest, tracked)
  {
    if w.digests == map[] {
      forall q | q in Wiped(w.disk, dest) ensures q in w.disk && Wiped(w.disk, dest)[q] == w.disk[q] {
        assert Look(Wiped(w.disk, dest), q) == if dest <= q then None else Look(w.disk, q);
      }
      TidyPart(w.disk, Wiped(w.disk, dest), dest, tracked);
    }
  }

  /** A call in which the tasks take turns. */
  lemma CallInTurn(w: World, r: Request, dest: Path, tracked: set<Path>, fails: bool, target: Path, torn: string)
    returns (call: Call)
    requires IsTidy(w.disk, dest, tracked) && Antichain(tracked) && InfoApart(tracked)
    requires w.current.Keys <= tracked && r.entries.Keys <= tracked && r.entries.Keys <= r.source.Keys
    requires fails ==> exists q :: IsDue(w.current, r.entries, q)
    ensures ProgramFor(w.current, r.entries, r.source, dest, call.program)
    ensures After(Start(call.program, call.workers, Begun(w, dest)), call.events) == Some(call.end)
    ensures if fails then call.end.caller.Raised? else call.end.caller.Returned? && NoFailure(call.end)
    ensures call.end.disk == Disks(call.program, Begun(w, dest), fails, target, torn)[|call.program|]
            && IsTidy(call.end.disk, dest, tracked)
  {
    hide *;
    var program := ProgramOf(w.current, r.entries, r.source, dest);
    ProgramWorks(w.current, r, dest, program, tracked);
    BegunTidy(w, dest, tracked);
    DisksAreTurns(program, Begun(w, dest), dest, tracked, fails, target, torn);
    var disks := Disks(program, Begun(w, dest), fails, target, torn);
    var run, end := TurnsEnd(program, 1, disks, fails);
    call := Call(program, 1, run, end);
  }

  /** The request around a call. */
  lemma RequestAround(w: World, r: Request, dest: Path, call: Call) returns (step: Step, w': World)
    requires r.entries.Keys <= r.source.Keys && ProgramFor(w.current, r.entries, r.source, dest, call.program)
    requires After(Start(call.program, call.workers, Begun(w, dest)), call.events) == Some(call.end)
    ensures Happens(w, step, dest, w') && step.request == r && step.call == call
    ensures w'.current == if call.end.caller.Returned? then r.entries else w.current
    ensures w'.disk == call.end.disk || (call.end.caller.Returned? && w'.disk == WithInfo(call.end.disk, dest, ""))
  {
    hide ProgramFor, After, Start, CanOpen, Begun, WithInfo;
    var returned := call.end.caller.Returned?;
    var done := returned && CanOpen(call.end.disk, dest);
    w' := World(if done then WithInfo(call.end.disk, dest, "")
        else call.end.disk, r.entries, if returned then r.entries else w.current);
    step := Step(r, "", call, done);
  }

  lemma ListingIsGood(entries: Shas, tracked: set<Path>, contents: map<string, string>)
    requires CanList(entries, tracked, contents)
    ensures var r := Listing(entries, contents);
            r.entries == entries && entries.Keys <= tracked && entries.Keys <= r.source.Keys
                && Faithful(entries, r.source, contents)
  {
  }

  /** A request that returns as asked for, with a tidy disk. */
  lemma GoodRequest(w: World, entries: Shas, dest: Path, tracked: set<Path>, contents: map<string, string>)
    returns (step: Step, w': World)
    requires IsTidy(w.disk, dest, tracked) && Antichain(tracked) && InfoApart(tracked)
    requires w.current.Keys <= tracked && CanList(entries, tracked, contents)
    ensures Happens(w, step, dest, w') && GoodStep(step, tracked, contents)
    ensures step.request.entries == entries && step.call.end.caller.Returned? && IsTidy(w'.disk, dest, tracked)
            && w'.current == entries
  {
    ListingIsGood(entries, tracked, contents);
    var r := Listing(entries, contents);
    hide IsTidy, Antichain, InfoApart, Listing, Happens, Faithful, NoFailure, ProgramFor, After, Start, Begun, Disks,
         WithInfo, IsDue;
    var call := CallInTurn(w, r, dest, tracked, false, [], "");
    step, w' := RequestAround(w, r, dest, call);
    InfoTidy(call.end.disk, dest, tracked);
  }

  lemma InfoTidy(d: Disk, dest: Path, tracked: set<Path>)
    requires IsTidy(d, dest, tracked)
    ensures IsTidy(WithInfo(d, dest, ""), dest, tracked)
  {
    TidyFile(d, dest, tracked, [INFO], Plain("", true));
  }

  /** A request that raises, having damaged the file at `p` if it works there. */
  lemma BadRequest(w: World, entries: Shas, dest: Path, tracked: set<Path>, contents: map<string, string>, p: Path,
                   content: string)
    returns (step: Step, w': World)
    requires IsTidy(w.disk, dest, tracked) && Antichain(tracked) && InfoApart(tracked)
    requires w.current.Keys <= tracked && CanList(entries, tracked, contents)
             && exists q :: IsDue(w.current, entries, q)
    ensures Happens(w, step, dest, w') && GoodStep(step, tracked, contents)
    ensures step.request.entries == entries && step.call.end.caller.Raised? && IsTidy(w'.disk, dest, tracked)
            && w'.current == w.current
    ensures !IsMirrored(w.disk, dest, p, content) || IsDue(w.current, entries, p) ==>
              !IsMirrored(w'.disk, dest, p, content)
  {
    ListingIsGood(entries, tracked, contents);
    var r := Listing(entries, contents);
    hide IsTidy, Antichain, InfoApart, Listing, Happens, Faithful, NoFailure, After, Start, Begun, Disks, IsDue,
         ProgramFor, IsMirrored;
    var call := CallInTurn(w, r, dest, tracked, true, dest + p, content + "?");
    step, w' := RequestAround(w, r, dest, call);
    if !IsMirrored(w.disk, dest, p, content) || IsDue(w.current, entries, p) {
      DamagedIn(w, r, dest, call.program, p, content);
    }
  }

  lemma DamagedIn(w: World, r: Request, dest: Path, program: seq<Op>, p: Path, content: string)
    requires r.entries.Keys <= r.source.Keys && ProgramFor(w.current, r.entries, r.source, dest, program)
    requires !IsMirrored(w.disk, dest, p, content) || IsDue(w.current, r.entries, p)
    ensures !IsMirrored(Disks(program, Begun(w, dest), true, dest + p, content + "?")[|program|], dest, p, content)
  {
    assert dest <= dest + p;
    assert Look(Begun(w, dest), dest + p) == None || Look(Begun(w, dest), dest + p) == Look(w.disk, dest + p);
    FailedBadly(program, Begun(w, dest), dest + p, content + "?", content);
    hide Disks;
  }

  /** What was lost stays so through a request that does not copy it. */
  lemma LostStays(w: World, step: Step, dest: Path, w': World, tracked: set<Path>, p: Path, content: string)
    requires Happens(w, step, dest, w') && Antichain(tracked) && InfoApart(tracked)
    requires w.current.Keys <= tracked && step.request.entries.Keys <= tracked && p in w.current
    requires !IsDue(w.current, step.request.entries, p) && !IsMirrored(w.disk, dest, p, content)
    ensures !IsMirrored(w'.disk, dest, p, content)
  {
    assert dest <= dest + p;
    assert Look(Begun(w, dest), dest + p) == None || Look(Begun(w, dest), dest + p) == Look(w.disk, dest + p);
    hide Handles, Begun;
    UnlistedStays(w, step.request, dest, step.info, step.call, w', step.done, p);
  }

  // --------------------------------------------------------------- whole runs

  /** A sync raises only if it has something to do. */
  ghost predicate ArePossible(outcomes: seq<Outcome>) {
    forall i :: 0 <= i < |outcomes| && !outcomes[i].returned ==>
      exists q :: IsDue(LastReturned(outcomes[..i]), outcomes[i].incoming, q)
  }

  ghost predicate AllRaise(steps: seq<Step>) {
    forall i :: 0 <= i < |steps| ==> steps[i].call.end.caller.Returned? || steps[i].call.end.caller.Raised?
  }

  lemma WorstRequest(w: World, front: seq<Outcome>, last: Outcome, dest: Path, tracked: set<Path>,
                     contents: map<string, string>, p: Path)
    returns (step: Step, w': World)
    requires IsTidy(w.disk, dest, tracked) && Antichain(tracked) && InfoApart(tracked)
    requires w.current == LastReturned(front) && w.current.Keys <= tracked && CanList(last.incoming, tracked, contents)
    requires !last.returned ==> exists q :: IsDue(w.current, last.incoming, q)
    requires forall q :: q in w.current ==> w.current[q] in contents
    requires p in w.current && !Sure(front, p) ==> !IsMirrored(w.disk, dest, p, contents[w.current[p]])
    ensures Happens(w, step, dest, w') && GoodStep(step, tracked, contents) && IsTidy(w'.disk, dest, tracked)
    ensures step.request.entries == last.incoming && step.call.end.caller.Returned? == last.returned
    ensures step.call.end.caller.Returned? || step.call.end.caller.Raised?
    ensures var all := front + [last];
            && w'.current == LastReturned(all)
            && (forall q :: q in w'.current ==> q in tracked && w'.current[q] in contents)
            && (p in w'.current && !Sure(all, p) ==> !IsMirrored(w'.disk, dest, p, contents[w'.current[p]]))
  {
    var all := front + [last];
    assert all[..|all| - 1] == front;
    var content := if p in w.current then contents[w.current[p]] else "";
    if last.returned {
      step, w' := GoodRequest(w, last.incoming, dest, tracked, contents);
      if p in w'.current && !Sure(all, p) { LostStays(w, step, dest, w', tracked, p, content); }
    } else {
      step, w' := BadRequest(w, last.incoming, dest, tracked, contents, p, content);
    }
    hide IsTidy, Antichain, InfoApart, Happens, GoodStep, IsMirrored;
  }

  lemma LongerRun(worlds: seq<World>, steps: seq<Step>, step: Step, w': World, dest: Path)
    requires IsRun(worlds, steps, dest) && Happens(worlds[|steps|], step, dest, w')
    ensures IsRun(worlds + [w'], steps + [step], dest)
    ensures Outcomes(steps + [step])
            == Outcomes(steps) + [Outcome(step.request.entries, step.call.end.caller.Returned?)]
  {
    LongerOutcomes(steps, step);
    hide Happens, Outcomes;
    var (ws, ss) := (worlds + [w'], steps + [step]);
    forall i | 0 <= i < |ss| ensures Happens(ws[i], ss[i], dest, ws[i + 1]) {
      if i < |steps| {
        assert ws[i] == worlds[i] && ws[i + 1] == worlds[i + 1] && ss[i] == steps[i];
      } else {
        assert ws[i] == worlds[|steps|] && ws[i + 1] == w' && ss[i] == step;
      }
    }
  }

  lemma LongerOutcomes(steps: seq<Step>, step: Step)
    ensures Outcomes(steps + [step])
            == Outcomes(steps) + [Outcome(step.request.entries, step.call.end.caller.Returned?)]
  {
    assert (steps + [step])[..|steps|] == steps;
  }

  lemma {:induction false} WorstRun(outcomes: seq<Outcome>, dest: Path, tracked: set<Path>,
                                    contents: map<string, string>, p: Path)
    returns (worlds: seq<World>, steps: seq<Step>)
    requires Antichain(tracked) && InfoApart(tracked) && ArePossible(outcomes)
    requires forall i :: 0 <= i < |outcomes| ==> CanList(outcomes[i].incoming, tracked, contents)
    ensures IsRun(worlds, steps, dest) && GoodSteps(steps, tracked, contents) && AllRaise(steps)
            && Outcomes(steps) == outcomes
    ensures IsTidy(worlds[|steps|].disk, dest, tracked) && worlds[|steps|].current == LastReturned(outcomes)
    ensures worlds[|steps|].current.Keys <= tracked && forall q :: q in worlds[|steps|].current ==>
              worlds[|steps|].current[q] in contents
    ensures p in LastReturned(outcomes) && !Sure(outcomes, p) ==>
              !IsMirrored(worlds[|steps|].disk, dest, p, contents[LastReturned(outcomes)[p]])
  {
    if outcomes == [] {
      worlds, steps := [World(map[], map[], map[])], [];
    } else {
      var n := |outcomes| - 1;
      var (front, last) := (outcomes[..n], outcomes[n]);
      assert ArePossible(front) by { assert forall i :: 0 <= i < n ==> front[..i] == outcomes[..i]; }
      var ws, ss := WorstRun(front, dest, tracked, contents, p);
      OutcomeAt(ss);
      assert last == outcomes[n] && outcomes[..n] + [last] == outcomes && |ws| == |ss| + 1 && |ss| == n;
      assert !last.returned ==> exists q :: IsDue(LastReturned(front), last.incoming, q);
      hide *;
      var step, w' := WorstRequest(ws[n], front, last, dest, tracked, contents, p);
      worlds, steps := ws + [w'], ss + [step];
      LongerRun(ws, ss, step, w', dest);
      LongerGood(ss, step, tracked, contents);
      OutcomeIs(last);
    }
  }

  lemma OutcomeIs(o: Outcome)
    ensures Outcome(o.incoming, o.returned) == o
  {
  }

  lemma LongerGood(steps: seq<Step>, step: Step, tracked: set<Path>, contents: map<string, string>)
    requires GoodSteps(steps, tracked, contents) && GoodStep(step, tracked, contents)
    requires AllRaise(steps) && (step.call.end.caller.Returned? || step.call.end.caller.Raised?)
    ensures GoodSteps(steps + [step], tracked, contents) && AllRaise(steps + [step])
  {
    hide GoodStep;
  }

  ghost predicate RunsAs(worlds: seq<World>, steps: seq<Step>, outcomes: seq<Outcome>, dest: Path, tracked: set<Path>,
                         contents: map<string, string>) {
    IsRun(worlds, steps, dest) && GoodSteps(steps, tracked, contents) && AllRaise(steps) && Outcomes(steps) == outcomes
  }

  /** For any requests and ways they can end: a file of the last returned one is at the
      destination after every run of them exactly when it is sure. */
  lemma SureIffMirrored(outcomes: seq<Outcome>, dest: Path, tracked: set<Path>, contents: map<string, string>, p: Path)
    requires Antichain(tracked) && InfoApart(tracked) && ArePossible(outcomes) && p in LastReturned(outcomes)
    requires forall i :: 0 <= i < |outcomes| ==> CanList(outcomes[i].incoming, tracked, contents)
    ensures LastReturned(outcomes)[p] in contents
    ensures (forall worlds: seq<World>, steps: seq<Step> :: RunsAs(worlds, steps, outcomes, dest, tracked, contents) ==>
               IsMirrored(worlds[|steps|].disk, dest, p, contents[LastReturned(outcomes)[p]]))
            <==> Sure(outcomes, p)
  {
    var ws, ss := WorstRun(outcomes, dest, tracked, contents, p);
    assert RunsAs(ws, ss, outcomes, dest, tracked, contents);
    hide IsRun, GoodSteps, AllRaise, Outcomes, Sure, IsMirrored, IsTidy, CanList, Antichain, InfoApart, ArePossible;
    if Sure(outcomes, p) {
      forall worlds: seq<World>, steps: seq<Step> | RunsAs(worlds, steps, outcomes, dest, tracked, contents)
        ensures IsMirrored(worlds[|steps|].disk, dest, p, contents[LastReturned(outcomes)[p]])
      {
        SureIsMirrored(worlds, steps, dest, tracked, contents, p);
      }
    }
  }
}
