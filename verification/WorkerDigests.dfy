/** The worker's digest bookkeeping beside the syncer's own. */
module WorkerDigests {
  import opened SyncFiles
  import opened SyncProtocol
  import opened SyncSafety
  import opened SyncMirror
  import opened DirectorySyncer
  import opened WorkerRequests

  datatype Input = Input(path: Path, digest: string)

  /** The source-relative digests of a request; a repeated path keeps its last. */
  function Incoming(inputs: seq<Input>, srcdir: Path): Shas {
    if inputs == [] then map[]
    else
      var before := Incoming(inputs[..|inputs| - 1], srcdir);
      var last := inputs[|inputs| - 1];
      if srcdir < last.path then before[last.path[|srcdir|..] := last.digest] else before
  }

  predicate Differs(digests: Shas, p: Path, digest: string) {
    p !in digests || digests[p] != digest
  }

  /** The paths that some input of the request shows as new or changed. */
  ghost predicate Reports(digests: Shas, inputs: seq<Input>, srcdir: Path, p: Path) {
    p != [] && exists i :: 0 <= i < |inputs| && inputs[i].path == srcdir + p && Differs(digests, p, inputs[i].digest)
  }

  ghost predicate DistinctPaths(inputs: seq<Input>) {
    forall i, j :: 0 <= i < j < |inputs| ==> inputs[i].path != inputs[j].path
  }

  lemma {:induction false} IncomingIs(inputs: seq<Input>, srcdir: Path, p: Path)
    ensures p in Incoming(inputs, srcdir) ==>
              p != [] && exists i ::
                  0 <= i < |inputs| && inputs[i].path == srcdir + p && inputs[i].digest == Incoming(inputs, srcdir)[p]
    ensures (exists i :: 0 <= i < |inputs| && inputs[i].path == srcdir + p) && p != [] ==> p in Incoming(inputs, srcdir)
  {
    if inputs != [] {
      var front, last := inputs[..|inputs| - 1], inputs[|inputs| - 1];
      IncomingIs(front, srcdir, p);
      if srcdir < last.path { assert srcdir + last.path[|srcdir|..] == last.path; }
      if p in Incoming(inputs, srcdir) && !(srcdir < last.path && p == last.path[|srcdir|..]) {
        var i :| 0 <= i < |front| && front[i].path == srcdir + p && front[i].digest == Incoming(front, srcdir)[p];
        assert inputs[i] == front[i];
      }
      if i :| 0 <= i < |inputs| && inputs[i].path == srcdir + p {
        if i < |front| {
          assert front[i] == inputs[i];
        } else if p != [] {
          assert srcdir < last.path && last.path[|srcdir|..] == p;
        }
      }
    }
  }

  /** Of inputs with distinct paths, those reported are those whose digest in the
      request is new. */
  lemma DistinctReports(digests: Shas, inputs: seq<Input>, srcdir: Path, p: Path)
    ensures ToCopy(digests, Incoming(inputs, srcdir), p) ==> Reports(digests, inputs, srcdir, p)
    ensures DistinctPaths(inputs) ==>
              (Reports(digests, inputs, srcdir, p) <==> ToCopy(digests, Incoming(inputs, srcdir), p))
  {
    IncomingIs(inputs, srcdir, p);
    hide Incoming;
    if DistinctPaths(inputs) && Reports(digests, inputs, srcdir, p) {
      var i :| 0 <= i < |inputs| && inputs[i].path == srcdir + p && Differs(digests, p, inputs[i].digest);
      var j :| 0 <= j < |inputs| && inputs[j].path == srcdir + p && inputs[j].digest == Incoming(inputs, srcdir)[p];
      assert i == j;
    }
  }

  class Worker {
    const srcdir: Path
    const syncer: Syncer
    var digests: Shas

    constructor (srcdir: Path, syncer: Syncer)
      ensures this.srcdir == srcdir && this.syncer == syncer && digests == map[]
    {
      this.srcdir, this.syncer, this.digests := srcdir, syncer, map[];
    }

    /** The part of `_prepare_sphinx` before the sync. Tools and parameter files
        outside the source directory are passed over. */
    method RecordDigests(inputs: seq<Input>) returns (incoming: Shas, changed: set<Path>)
      modifies this
      ensures digests == incoming == Incoming(inputs, srcdir)
      ensures forall p :: p in changed <==> Reports(old(digests), inputs, srcdir, p)
    {
      incoming, changed := map[], {};
      for i := 0 to |inputs|
        invariant incoming == Incoming(inputs[..i], srcdir) && digests == old(digests)
        invariant forall p :: p in changed <==> Reports(digests, inputs[..i], srcdir, p)
      {
        assert inputs[..i + 1][..i] == inputs[..i];
        var path := inputs[i].path;
        ReportsStep(digests, inputs, i, srcdir);
        if srcdir < path {
          var p := path[|srcdir|..];
          incoming := incoming[p := inputs[i].digest];
          if p !in digests || digests[p] != inputs[i].digest {
            changed := changed + {p};
          }
        }
      }
      assert inputs[..|inputs|] == inputs;
      digests := incoming;
    }

    /** `_prepare_sphinx`: the digests are recorded before the sync that may raise;
        without earlier digests the destination is wiped first; at the end a file is
        written into it. */
    method PrepareSphinx(inputs: seq<Input>, source: map<Path, SourceFile>, schedule: seq<Event>, info: string)
      returns (changed: set<Path>, done: bool, ghost call: Call)
      requires Incoming(inputs, srcdir).Keys <= source.Keys
      modifies this, syncer
      ensures Handles(World(old(syncer.disk), old(digests), old(syncer.currentShas)),
              Request(Incoming(inputs, srcdir), source),
                      syncer.dest, info, call, World(syncer.disk, digests, syncer.currentShas), done)
      ensures forall p :: p in changed <==> Reports(old(digests), inputs, srcdir, p)
    {
      hide Incoming, ProgramFor, Mirrors, Faithful, Antichain, NoFailure, Reports, After, Start;
      var isFirstRequest := digests == map[];
      var incoming;
      incoming, changed := RecordDigests(inputs);
      if isFirstRequest { syncer.Wipe(); }
      ghost var taken := syncer.Sync(incoming, source, schedule, {}, {}, map[]);
      call := Call(syncer.program, syncer.workers, taken, syncer.Snapshot());
      done := false;
      if syncer.caller.Returned? && CanOpen(syncer.disk, syncer.dest) {
        syncer.WriteFile([INFO], info);
        done := true;
      }
    }
  }

  lemma ReportsStep(digests: Shas, inputs: seq<Input>, i: nat, srcdir: Path)
    requires i < |inputs|
    ensures forall p :: Reports(digests, inputs[..i + 1], srcdir, p) <==>
              Reports(digests, inputs[..i], srcdir, p)
              || (srcdir < inputs[i].path && p == inputs[i].path[|srcdir|..] && Differs(digests, p, inputs[i].digest))
  {
    hide Differs;
    var path := inputs[i].path;
    forall p ensures path == srcdir + p && p != [] <==> srcdir < path && p == path[|srcdir|..] {
      if srcdir < path { assert path == srcdir + path[|srcdir|..]; }
    }
    forall p | Reports(digests, inputs[..i], srcdir, p) ensures Reports(digests, inputs[..i + 1], srcdir, p) {
      var k :| 0 <= k < i && inputs[..i][k].path == srcdir + p && Differs(digests, p, inputs[..i][k].digest);
      assert inputs[..i + 1][k] == inputs[..i][k];
    }
    forall p | Reports(digests, inputs[..i + 1], srcdir, p)
      ensures Reports(digests, inputs[..i], srcdir, p) || (path == srcdir + p && Differs(digests, p, inputs[i].digest))
    {
      var k :| 0 <= k <= i && inputs[..i + 1][k].path == srcdir + p && Differs(digests, p, inputs[..i + 1][k].digest);
      if k < i { assert inputs[..i][k] == inputs[..i + 1][k]; }
    }
    assert inputs[..i + 1][i] == inputs[i];
  }

  // ------------------------------------------------------------ two records

  /** The worker's record and the syncer's. */
  datatype Records = Records(digests: Shas, current: Shas)

  /** What a request leaves of them. */
  function Served(r: Records, incoming: Shas, returned: bool): Records {
    Records(incoming, if returned then incoming else r.current)
  }

  datatype Outcome = Outcome(incoming: Shas, returned: bool)

  function ServedAll(outcomes: seq<Outcome>): Records {
    if outcomes == [] then Records(map[], map[])
    else Served(ServedAll(outcomes[..|outcomes| - 1]), outcomes[|outcomes| - 1].incoming,
        outcomes[|outcomes| - 1].returned)
  }

  /** The digests of the last request whose sync returned. */
  function LastReturned(outcomes: seq<Outcome>): Shas {
    if outcomes == [] then map[]
    else if outcomes[|outcomes| - 1].returned then outcomes[|outcomes| - 1].incoming
    else LastReturned(outcomes[..|outcomes| - 1])
  }

  lemma {:induction false} CurrentIsLastReturned(outcomes: seq<Outcome>)
    ensures ServedAll(outcomes).current == LastReturned(outcomes)
  {
    if outcomes != [] { CurrentIsLastReturned(outcomes[..|outcomes| - 1]); }
  }

  /** A request reports what it copies. */
  ghost predicate ReportsCopies(r: Records, inputs: seq<Input>, srcdir: Path) {
    forall p :: Reports(r.digests, inputs, srcdir, p) <==> ToCopy(r.current, Incoming(inputs, srcdir), p)
  }

  ghost predicate AllReportCopies(r: Records, srcdir: Path) {
    forall inputs :: DistinctPaths(inputs) ==> ReportsCopies(r, inputs, srcdir)
  }

  /** Any digests may be asked for, each path once. */
  lemma {:induction false} InputsOf(entries: Shas, srcdir: Path) returns (inputs: seq<Input>)
    requires [] !in entries
    ensures DistinctPaths(inputs) && Incoming(inputs, srcdir) == entries
    ensures forall i :: 0 <= i < |inputs| ==> srcdir <= inputs[i].path && inputs[i].path[|srcdir|..] in entries
    decreases |entries|
  {
    if entries == map[] {
      inputs := [];
    } else {
      var p :| p in entries;
      var rest := entries - {p};
      assert rest.Keys == entries.Keys - {p};
      var front := InputsOf(rest, srcdir);
      inputs := front + [Input(srcdir + p, entries[p])];
      assert inputs[..|inputs| - 1] == front && (srcdir + p)[|srcdir|..] == p && srcdir < srcdir + p;
      forall i | 0 <= i < |front| ensures front[i].path != srcdir + p { assert front[i].path[|srcdir|..] in rest; }
      assert rest[p := entries[p]] == entries;
    }
  }

  lemma ReportsWhatIsCopied(r: Records, srcdir: Path)
    requires [] !in r.digests && [] !in r.current
    ensures AllReportCopies(r, srcdir) <==> r.digests == r.current
  {
    if AllReportCopies(r, srcdir) {
      var mine := InputsOf(r.digests, srcdir);
      var other := InputsOf(r.current, srcdir);
      assert ReportsCopies(r, mine, srcdir) && ReportsCopies(r, other, srcdir);
      hide Incoming, Reports, DistinctPaths;
      forall p ensures p in r.digests ==> p in r.current && r.current[p] == r.digests[p]
               ensures p in r.current ==> p in r.digests && r.digests[p] == r.current[p] {
        DistinctReports(r.digests, mine, srcdir, p);
        DistinctReports(r.digests, other, srcdir, p);
        assert !ToCopy(r.digests, r.digests, p) && !ToCopy(r.current, r.current, p);
      }
    }
    if r.digests == r.current {
      hide Incoming, Reports, DistinctPaths;
      forall inputs | DistinctPaths(inputs) ensures ReportsCopies(r, inputs, srcdir) {
        forall p ensures Reports(r.digests, inputs, srcdir, p) <==> ToCopy(r.current, Incoming(inputs, srcdir), p) {
          DistinctReports(r.digests, inputs, srcdir, p);
        }
      }
    }
  }

  ghost predicate ListPaths(outcomes: seq<Outcome>) {
    forall i :: 0 <= i < |outcomes| ==> [] !in outcomes[i].incoming
  }

  lemma {:induction false} RecordsListPaths(outcomes: seq<Outcome>)
    requires ListPaths(outcomes)
    ensures [] !in ServedAll(outcomes).digests && [] !in ServedAll(outcomes).current
  {
    if outcomes != [] { RecordsListPaths(outcomes[..|outcomes| - 1]); }
  }

  /** After any sequence of requests every next one that lists its paths once
      reports just what it copies exactly when the last sync returned, or raised
      over the digests that the last one to return had. */
  lemma RequestsReportIff(outcomes: seq<Outcome>, srcdir: Path)
    requires ListPaths(outcomes)
    ensures AllReportCopies(ServedAll(outcomes), srcdir) <==>
              outcomes == [] || outcomes[|outcomes| - 1].returned
                  || outcomes[|outcomes| - 1].incoming == LastReturned(outcomes)
  {
    CurrentIsLastReturned(outcomes);
    RecordsListPaths(outcomes);
    ReportsWhatIsCopied(ServedAll(outcomes), srcdir);
    hide AllReportCopies;
  }

  /** A file that a raised sync still had to copy is copied by the next request with
      the same inputs, and not reported by it. */
  lemma RaisedIsUnderReported(outcomes: seq<Outcome>, inputs: seq<Input>, srcdir: Path, p: Path)
    requires DistinctPaths(inputs) && ToCopy(ServedAll(outcomes).current, Incoming(inputs, srcdir), p)
    ensures var r := ServedAll(outcomes + [Outcome(Incoming(inputs, srcdir), false)]);
            ToCopy(r.current, Incoming(inputs, srcdir), p) && !Reports(r.digests, inputs, srcdir, p)
  {
    var all := outcomes + [Outcome(Incoming(inputs, srcdir), false)];
    assert all[..|all| - 1] == outcomes;
    DistinctReports(Incoming(inputs, srcdir), inputs, srcdir, p);
    hide Reports, Incoming;
  }

  /** A path listed twice is reported also when only its first digest is new, which
      its last one, the one that counts, overrides. */
  lemma RepeatIsReported(srcdir: Path, p: Path, x: string, y: string)
    requires p != [] && x != y
    ensures var inputs := [Input(srcdir + p, x), Input(srcdir + p, y)];
            && Incoming(inputs, srcdir) == map[p := y]
            && Reports(map[p := y], inputs, srcdir, p) && !ToCopy(map[p := y], Incoming(inputs, srcdir), p)
  {
    var inputs := [Input(srcdir + p, x), Input(srcdir + p, y)];
    assert inputs[..1] == [inputs[0]] && inputs[..1][..0] == [];
    assert (srcdir + p)[|srcdir|..] == p && srcdir < srcdir + p;
    assert Incoming(inputs[..1], srcdir) == map[p := x];
    assert inputs[0].path == srcdir + p;
  }
}
