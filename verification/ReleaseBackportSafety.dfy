/** Processing backports keeps the release invariant, whichever picks fail and
    wherever they fail. */
module ReleaseBackportSafety {
  import opened Text
  import opened Decimal
  import opened Checklist
  import opened IssueBody
  import opened GitGraph
  import opened ReleaseSteps
  import opened ReleaseIssueSafety
  import opened ReleaseSafety

  // ------------------------------------------------------------------ adding

  /** A reference typed on the command line, which is split at blanks and commas. */
  ghost predicate GoodRef(r: AddRef) {
    r.Invalid? ==> r.ref != "" && forall i :: 0 <= i < |r.ref| ==> !IsSpace(r.ref[i])
  }

  lemma {:induction false} UnlistedFrom(items: seq<NewItem>, existing: set<string>, i: nat)
    requires i < |Unlisted(items, existing)|
    ensures exists k :: 0 <= k < |items|
                        && Unlisted(items, existing)[i] == NewItem(Normalized(items[k].ref), items[k].metadata)
  {
    hide Normalized;
    var ref := Normalized(items[0].ref);
    if ref in existing {
      UnlistedFrom(items[1..], existing, i);
      var k :| 0 <= k < |items[1..]| && Unlisted(items, existing)[i]
          == NewItem(Normalized(items[1..][k].ref), items[1..][k].metadata);
      assert items[k + 1] == items[1..][k];
    } else if i > 0 {
      UnlistedFrom(items[1..], existing + {ref}, i - 1);
      var k :| 0 <= k < |items[1..]| && Unlisted(items, existing)[i]
          == NewItem(Normalized(items[1..][k].ref), items[1..][k].metadata);
      assert items[k + 1] == items[1..][k];
    }
  }

  function AddedItems(refs: seq<AddRef>): seq<NewItem> {
    seq(|refs|, i requires 0 <= i < |refs| => AddedItem(refs[i]))
  }

  lemma GoodRefNormalized(r: AddRef)
    requires GoodRef(r)
    ensures r.Invalid? ==> var ref := Normalized(AddedItem(r).ref); ref != "" && forall i :: 0 <= i < |ref| ==>
              !IsSpace(ref[i])
  {
    if r.Invalid? {
      var ref := Normalized(r.ref);
      assert ref == r.ref || ref == "#" + r.ref;
    }
  }

  lemma AddBackportsOk(body: Body, refs: seq<AddRef>, head: Option<Commit>, merges: Merges)
    requires BodyOk(body, head, merges) && forall i :: 0 <= i < |refs| ==> GoodRef(refs[i])
    ensures AddBackports(body, AddedItems(refs)).Some? ==>
              BodyOk(AddBackports(body, AddedItems(refs)).value, head, merges)
  {
    hide LineOk, Unlisted, GoodRef, FormatLine, AddBackports, AddedItem, Normalized, Backports;
    var items := AddedItems(refs);
    var added := AddBackports(body, items);
    if added.Some? {
      var unlisted := Unlisted(items, Names(Backports(body)));
      forall l | l in added.value ensures LineOk(l, head, merges) {
        AddBackportsLines(body, items, l);
        EmptyLineOk(head, merges);
        if l in ItemLines(unlisted) {
          var i :| 0 <= i < |unlisted| && ItemLines(unlisted)[i] == l;
          UnlistedFrom(items, Names(Backports(body)), i);
          var k :| 0 <= k < |items| && unlisted[i] == NewItem(Normalized(items[k].ref), items[k].metadata);
          GoodRefNormalized(refs[k]);
          AddedLineOk(refs[k], Normalized(items[k].ref), head, merges);
        }
      }
    }
  }

  lemma AddAllOk(body: Body, refs: seq<AddRef>, head: Option<Commit>, merges: Merges)
    requires BodyOk(body, head, merges) && forall i :: 0 <= i < |refs| ==> GoodRef(refs[i])
    ensures AddAll(body, refs).Some? ==> BodyOk(AddAll(body, refs).value, head, merges)
  {
    AddBackportsOk(body, refs, head, merges);
    var items := AddedItems(refs);
    assert items == seq(|refs|, i requires 0 <= i < |refs| => AddedItem(refs[i]));
    hide BodyOk, AddBackports, AddSyncTasks, AddRcTask, HasPendingRc, NextRcTask, AddedItems;
    var added := AddBackports(body, items);
    if added.Some? {
      AddSyncTasksOk(added.value, refs, head, merges);
      var synced := AddSyncTasks(added.value, refs);
      if synced.Some? { AddRcTaskOk(synced.value, NextRcTask(SplitLines(synced.value)), head, merges); }
    }
  }

  // ----------------------------------------------------------------- triaging

  ghost predicate NotesOk(notes: Notes, head: Option<Commit>, merges: Merges) {
    BodyOk(notes.body, head, merges) && BodyOk(notes.saved, head, merges)
  }

  lemma NotedOk(notes: Notes, ref: string, checked: bool, md: Metadata, env: Env, head: Option<Commit>, merges: Merges)
    requires NotesOk(notes, head, merges) && LineOk(FormatLine(checked, ref, md), head, merges)
    ensures NotesOk(Noted(notes, ref, checked, md, env), head, merges)
  {
    UpdateOk(notes.body, ref, checked, md, head, merges);
    hide BodyOk, Update;
  }

  /** A pending backport as the invariant leaves it: unchecked, no commit noted. */
  ghost predicate CleanPending(t: Task) {
    IsPrRef(t.name) && !t.checked && TaskCommit(Some(t)) == ""
  }

  /** A commit to pick is the merge commit of the backport that asked for it. */
  ghost predicate ItemsOk(items: map<string, Task>, merges: Merges) {
    forall sha :: sha in items ==>
      IsPrRef(items[sha].name) && PrNumber(items[sha].name) in merges && merges[PrNumber(items[sha].name)] == sha
  }

  lemma ResolvedIsMerge(t: Task, env: Env, merges: Merges)
    requires CleanPending(t) && EnvConsistent(env, merges)
    ensures Resolve(t, env).ToPick? ==> PrNumber(t.name) in merges && merges[PrNumber(t.name)] == Resolve(t, env).sha
  {
    hide IsPrRef, PrNumber, TaskCommit;
  }

  lemma TriageOneOk(acc: Triage, t: Task, env: Env, dryRun: bool, head: Option<Commit>, merges: Merges)
    requires CleanPending(t) && EnvConsistent(env, merges)
    requires NotesOk(acc.notes, head, merges) && ItemsOk(acc.items, merges)
    ensures NotesOk(TriageOne(acc, t, env, dryRun).notes, head, merges)
    ensures ItemsOk(TriageOne(acc, t, env, dryRun).items, merges)
  {
    ResolvedIsMerge(t, env, merges);
    hide PrNumber, TaskCommit, EnvConsistent, BodyOk, LineOk, FormatLine, Noted;
    var r := Resolve(t, env);
    hide Resolve;
    if r.Failed? {
      ResolvedStatusIsGood(t, env);
      StatusLineOk(t.name, r.status, head, merges);
      NotedOk(acc.notes.(failed := acc.notes.failed + 1), t.name, false, [Pair("status", r.status)], env, head, merges);
    }
    hide IsPrRef;
  }

  lemma {:induction false} TriageAllOk(acc: Triage, items: seq<Task>, env: Env, dryRun: bool, head: Option<Commit>,
                                       merges: Merges)
    requires AllPrRefs(items) && (forall t :: t in items ==> CleanPending(t)) && EnvConsistent(env, merges)
    requires NotesOk(acc.notes, head, merges) && ItemsOk(acc.items, merges)
    ensures NotesOk(TriageAll(acc, items, env, dryRun).notes, head, merges)
    ensures ItemsOk(TriageAll(acc, items, env, dryRun).items, merges)
    ensures dryRun ==> TriageAll(acc, items, env, dryRun).notes.saved == acc.notes.saved
    decreases |items|
  {
    if items != [] {
      TriageOneOk(acc, items[0], env, dryRun, head, merges);
      assert AllPrRefs(items[1..]) && forall t :: t in items[1..] ==> CleanPending(t);
      hide TriageOne, NotesOk, ItemsOk, CleanPending, IsPrRef, EnvConsistent;
      TriageAllOk(TriageOne(acc, items[0], env, dryRun), items[1..], env, dryRun, head, merges);
      TriageOneDry(acc, items[0], env, dryRun);
    }
  }

  lemma TriageOneDry(acc: Triage, t: Task, env: Env, dryRun: bool)
    requires IsPrRef(t.name)
    ensures dryRun ==> TriageOne(acc, t, env, dryRun).notes.saved == acc.notes.saved
  {
    hide Resolve, Noted, IsPrRef;
  }

  // ------------------------------------------------------------------ picking

  ghost predicate PickingOk(p: Picking, merges: Merges) {
    IsAncestor(p.remote, p.local) && NotesOk(p.notes, Some(p.remote), merges)
  }

  lemma ConflictStatusIsGood()
    ensures GoodMetadata([Pair("status", "error-merge-conflict")])
  {
    assert IsDashed("error-merge-conflict");
    hide IsDashed, GoodMetadata;
    DashedIsGood("error-merge-conflict");
  }

  lemma FailingOk(p: Picking, ref: string, env: Env, dryRun: bool, merges: Merges)
    requires PickingOk(p, merges) && IsPrRef(ref)
    ensures PickingOk(Failing(p, ref, env, dryRun), merges)
    ensures Failing(p, ref, env, dryRun).remote == p.remote
  {
    ConflictStatusIsGood();
    hide BodyOk, LineOk, FormatLine, Noted, GoodMetadata, IsPrRef, IsAncestor;
    StatusLineOk(ref, "error-merge-conflict", Some(p.remote), merges);
    NotedOk(p.notes.(failed := p.notes.failed + 1), ref, false, [Pair("status", "error-merge-conflict")], env,
        Some(p.remote), merges);
  }

  /** A new commit on top of the local head, pushed or not. */
  lemma CommittedOk(p: Picking, c: Commit, pushed: bool, merges: Merges)
    requires PickingOk(p, merges) && c.parents == [p.local]
    ensures PickingOk(p.(local := c, remote := if pushed then c else p.remote), merges)
    ensures IsAncestor(p.remote, c)
  {
    ParentIsAncestor(c, 0);
    AncestorTransitive(p.remote, p.local, c);
    GrowsToSelf(c);
    hide IsAncestor, BodyOk;
    assert HeadGrows(Some(p.remote), Some(c));
    BodyOkGrows(p.notes.body, Some(p.remote), Some(c), merges);
    BodyOkGrows(p.notes.saved, Some(p.remote), Some(c), merges);
  }

  lemma GrowsToSelf(c: Commit)
    ensures IsAncestor(c, c)
  {
  }

  lemma PickedDoneOk(p: Picking, c: Commit, sha: string, ref: string, md: Metadata, env: Env, merges: Merges)
    requires PickingOk(p, merges) && p.remote == c && c.picked == Some(sha)
    requires IsPrRef(ref) && PrNumber(ref) in merges && merges[PrNumber(ref)] == sha
    ensures PickingOk(p.(notes := Noted(p.notes, ref, true, md, env)), merges)
  {
    GrowsToSelf(c);
    assert HasPick(c, sha);
    hide HasPick, BodyOk, LineOk, FormatLine, Noted, PrNumber, IsPrRef, IsAncestor;
    DoneLineOk(ref, md, Some(c), merges);
    NotedOk(p.notes, ref, true, md, env, Some(c), merges);
  }

  lemma PickOneOk(p: Picking, sha: string, ref: string, rc: string, env: Env, dryRun: bool, merges: Merges)
    requires PickingOk(p, merges)
    requires IsPrRef(ref) && PrNumber(ref) in merges && merges[PrNumber(ref)] == sha
    ensures var q := PickOne(p, sha, ref, rc, env, dryRun);
            PickingOk(q, merges) && IsAncestor(p.remote, q.remote)
                && (dryRun ==> q.remote == p.remote && q.notes.saved == p.notes.saved)
  {
    GrowsToSelf(p.remote);
    FailingDry(p, ref, env, dryRun);
    hide PickingOk, IsPrRef, PrNumber, Failing, Noted, IsAncestor;
    var outcome := if sha in env.picks then env.picks[sha] else Conflict;
    match outcome {
      case Conflict => FailingOk(p, ref, env, dryRun, merges);
      case FailedBeforePush(s) =>
        var c := Commit(s, [p.local], Some(sha));
        CommittedOk(p, c, false, merges);
        FailingDry(p.(local := c), ref, env, dryRun);
        FailingOk(p.(local := c), ref, env, dryRun, merges);
      case FailedAfterPush(s) =>
        var c := Commit(s, [p.local], Some(sha));
        CommittedOk(p, c, !dryRun, merges);
        if !dryRun { FailingOk(p.(local := c, remote := c), ref, env, dryRun, merges); }
      case Pushed(s, short) =>
        var c := Commit(s, [p.local], Some(sha));
        CommittedOk(p, c, !dryRun, merges);
        if !dryRun {
          PickedDoneOk(p.(local := c, remote := c), c, sha, ref,
              [Pair("status", "done"), Pair("rc", rc), Pair("commit", short)], env, merges);
        }
    }
  }

  lemma FailingDry(p: Picking, ref: string, env: Env, dryRun: bool)
    ensures Failing(p, ref, env, dryRun).remote == p.remote
    ensures dryRun ==> Failing(p, ref, env, dryRun).notes.saved == p.notes.saved
  {
    hide Noted;
  }

  lemma {:induction false} PickAllOk(p: Picking, shas: seq<string>, items: map<string, Task>, rc: string, env: Env,
                                     dryRun: bool, merges: Merges)
    requires forall s :: s in shas ==> s in items
    requires PickingOk(p, merges) && ItemsOk(items, merges)
    ensures var q := PickAll(p, shas, items, rc, env, dryRun);
            PickingOk(q, merges) && IsAncestor(p.remote, q.remote)
                && (dryRun ==> q.remote == p.remote && q.notes.saved == p.notes.saved)
    decreases |shas|
  {
    if shas == [] {
      GrowsToSelf(p.remote);
    } else {
      assert shas[0] in items;
      PickOneOk(p, shas[0], items[shas[0]].name, rc, env, dryRun, merges);
      var q := PickOne(p, shas[0], items[shas[0]].name, rc, env, dryRun);
      hide PickOne, PickingOk, ItemsOk, IsAncestor;
      PickAllOk(q, shas[1..], items, rc, env, dryRun, merges);
      AncestorTransitive(p.remote, q.remote, PickAll(q, shas[1..], items, rc, env, dryRun).remote);
    }
  }

  // ---------------------------------------------------------------- the command

  lemma PendingAreClean(body: Body, head: Option<Commit>, merges: Merges)
    requires BodyOk(body, head, merges)
    ensures AllPrRefs(Pending(Backports(body)))
    ensures forall t :: t in Pending(Backports(body)) ==> CleanPending(t)
  {
    PendingArePrRefs(body);
    var items := Backports(body);
    var s := Section(body);
    if s.Some? { BackportsArePrRefs(body[s.value.0..s.value.1]); }
    PendingKeepsRefs(items);
    forall t | t in Pending(items) ensures CleanPending(t) {
      BackportListed(body[s.value.0..s.value.1], t);
      PendingIsClean(body, t, head, merges);
    }
  }

  lemma PendingIsClean(body: Body, t: Task, head: Option<Commit>, merges: Merges)
    requires BodyOk(body, head, merges) && IsPending(t)
    requires exists l :: l in body && Backport(l) == Some(t)
    ensures CleanPending(t)
  {
    hide ParseLine, IsPrRef, TaskCommit;
    var l :| l in body && Backport(l) == Some(t);
    assert LineOk(l, head, merges);
  }

  /** What a step may change: bodies and branches, never tags. */
  ghost predicate OnlyBackports(w: World, w': World) {
    w'.tags == w.tags && w'.issues.Keys == w.issues.Keys
  }

  /** The world after the picks of a triaged issue. */
  function Picked(w: World, issue: nat, v: Version, triaged: Triage, env: Env, dryRun: bool): World
    requires issue in w.issues && BranchName(v) in w.branches
  {
    var head := w.branches[BranchName(v)];
    var done := PickAll(Picking(head, head, triaged.notes), InOrder(env.chronology, triaged.items.Keys), triaged.items,
                        "rc" + FromNat(NextRc(v, w.tags)), env, dryRun);
    WithBody(w.(branches := w.branches[BranchName(v) := done.remote]), issue, done.notes.saved)
  }

  lemma PickedOk(w: World, issue: nat, v: Version, triaged: Triage, env: Env, dryRun: bool, merges: Merges)
    requires Inv(w, merges) && issue in w.issues
    requires VersionInTitle(w.issues[issue].title) == Some(v) && BranchName(v) in w.branches
    requires NotesOk(triaged.notes, Some(w.branches[BranchName(v)]), merges) && ItemsOk(triaged.items, merges)
    ensures Inv(Picked(w, issue, v, triaged, env, dryRun), merges)
            && Grows(w, Picked(w, issue, v, triaged, env, dryRun))
  {
    hide NextRc, InOrder, VersionInTitle, BranchName, BodyOk, ItemsOk, Inv;
    var head := w.branches[BranchName(v)];
    GrowsToSelf(head);
    var shas := InOrder(env.chronology, triaged.items.Keys);
    var rc := "rc" + FromNat(NextRc(v, w.tags));
    PickAllOk(Picking(head, head, triaged.notes), shas, triaged.items, rc, env, dryRun, merges);
    var done := PickAll(Picking(head, head, triaged.notes), shas, triaged.items, rc, env, dryRun);
    hide PickAll;
    var branches := w.branches[BranchName(v) := done.remote];
    BranchesGrowReflexive(w.branches);
    BranchesMoved(w, branches, merges);
    BodyWritten(w.(branches := branches), issue, done.notes.saved, merges);
    hide Grows;
    GrowsTransitive(w, w.(branches := branches), Picked(w, issue, v, triaged, env, dryRun));
  }

  ghost function Triaged(w: World, issue: nat, body: Body, env: Env, dryRun: bool): Triage
    requires issue in w.issues
  {
    PendingArePrRefs(body);
    TriageAll(Triage(map[], Notes(body, w.issues[issue].body, 0)), Pending(Backports(body)), env, dryRun)
  }

  /** The three ways a run can end. */
  lemma RunPicksCases(w: World, issue: nat, body: Body, env: Env, dryRun: bool)
    requires issue in w.issues
    ensures var w' := RunPicks(w, issue, body, env, dryRun).0;
            var triaged := Triaged(w, issue, body, env, dryRun);
            || w' == w
            || w' == WithBody(w, issue, triaged.notes.saved)
            || (exists v :: VersionInTitle(w.issues[issue].title) == Some(v) && BranchName(v) in w.branches
                            && w' == Picked(w, issue, v, triaged, env, dryRun))
  {
    hide TriageAll, Pending, Backports, VersionInTitle, BranchName, NextRc, InOrder, PickAll;
  }

  lemma TriagedOk(w: World, issue: nat, body: Body, env: Env, dryRun: bool, merges: Merges)
    requires Inv(w, merges) && issue in w.issues && EnvConsistent(env, merges)
    requires BodyOk(body, HeadFor(w.branches, w.issues[issue].title), merges)
    ensures NotesOk(Triaged(w, issue, body, env, dryRun).notes, HeadFor(w.branches, w.issues[issue].title), merges)
    ensures ItemsOk(Triaged(w, issue, body, env, dryRun).items, merges)
  {
    var head := HeadFor(w.branches, w.issues[issue].title);
    PendingAreClean(body, head, merges);
    assert BodyOk(w.issues[issue].body, head, merges);
    hide TriageAll, Pending, Backports, EnvConsistent, CleanPending, BodyOk, Inv, HeadFor;
    TriageAllOk(Triage(map[], Notes(body, w.issues[issue].body, 0)), Pending(Backports(body)), env, dryRun, head,
        merges);
  }

  lemma RunPicksOk(w: World, issue: nat, body: Body, env: Env, dryRun: bool, merges: Merges)
    requires Inv(w, merges) && issue in w.issues && EnvConsistent(env, merges)
    requires BodyOk(body, HeadFor(w.branches, w.issues[issue].title), merges)
    ensures var w' := RunPicks(w, issue, body, env, dryRun).0;
            Inv(w', merges) && Grows(w, w') && OnlyBackports(w, w')
  {
    hide RunPicks, Triaged, EnvConsistent, BodyOk, Inv, Grows, VersionInTitle, BranchName, PickAll, InOrder, NextRc,
         ItemsOk;
    var triaged := Triaged(w, issue, body, env, dryRun);
    GrowsReflexive(w);
    TriagedOk(w, issue, body, env, dryRun, merges);
    RunPicksCases(w, issue, body, env, dryRun);
    BodyWritten(w, issue, triaged.notes.saved, merges);
    var version := VersionInTitle(w.issues[issue].title);
    if version.Some? && BranchName(version.value) in w.branches {
      PickedOk(w, issue, version.value, triaged, env, dryRun, merges);
    }
  }

  lemma ProcessBackportsOk(w: World, issue: nat, add: seq<AddRef>, env: Env, dryRun: bool, merges: Merges)
    requires Inv(w, merges) && EnvConsistent(env, merges)
    requires forall i :: 0 <= i < |add| ==> GoodRef(add[i])
    ensures var w' := ProcessBackports(w, issue, add, env, dryRun).0;
            Inv(w', merges) && Grows(w, w') && OnlyBackports(w, w')
  {
    GrowsReflexive(w);
    if issue in w.issues {
      var head := HeadFor(w.branches, w.issues[issue].title);
      assert BodyOk(w.issues[issue].body, head, merges);
      hide Inv, Grows, BodyOk, EnvConsistent, HeadFor, RunPicks, AddAll, GoodRef;
      AddAllOk(w.issues[issue].body, add, head, merges);
      if add == [] {
        RunPicksOk(w, issue, w.issues[issue].body, env, dryRun, merges);
      } else if AddAll(w.issues[issue].body, add).Some? && (dryRun || !env.addingFails) {
        AddedPicksOk(w, issue, AddAll(w.issues[issue].body, add).value, env, dryRun, merges);
      }
    }
  }

  lemma AddedPicksOk(w: World, issue: nat, body: Body, env: Env, dryRun: bool, merges: Merges)
    requires Inv(w, merges) && issue in w.issues && EnvConsistent(env, merges)
    requires BodyOk(body, HeadFor(w.branches, w.issues[issue].title), merges)
    ensures var w' := RunPicks(if dryRun then w else WithBody(w, issue, body), issue, body, env, dryRun).0;
            Inv(w', merges) && Grows(w, w') && OnlyBackports(w, w')
  {
    GrowsReflexive(w);
    hide Inv, Grows, BodyOk, EnvConsistent, HeadFor, RunPicks;
    BodyWritten(w, issue, body, merges);
    var noted := if dryRun then w else WithBody(w, issue, body);
    RunPicksOk(noted, issue, body, env, dryRun, merges);
    GrowsTransitive(w, noted, RunPicks(noted, issue, body, env, dryRun).0);
  }

  /** A dry run leaves the remote as it was. */
  lemma DryRunChangesNothing(w: World, issue: nat, add: seq<AddRef>, env: Env)
    ensures ProcessBackports(w, issue, add, env, true).0 == w
  {
    if issue in w.issues {
      var body := if add == [] then Some(w.issues[issue].body) else AddAll(w.issues[issue].body, add);
      hide AddAll;
      if body.Some? { DryPicks(w, issue, body.value, env); }
    }
  }

  lemma DryPicks(w: World, issue: nat, body: Body, env: Env)
    requires issue in w.issues
    ensures RunPicks(w, issue, body, env, true).0 == w
  {
    hide Pending, Backports, VersionInTitle, BranchName, NextRc, InOrder;
    PendingArePrRefs(body);
    var pending := Pending(Backports(body));
    var start := Triage(map[], Notes(body, w.issues[issue].body, 0));
    DryTriage(start, pending, env);
    var triaged := TriageAll(start, pending, env, true);
    hide TriageAll;
    assert w.issues[issue := w.issues[issue]] == w.issues;
    if VersionInTitle(w.issues[issue].title).Some? {
      var v := VersionInTitle(w.issues[issue].title).value;
      if BranchName(v) in w.branches {
        var head := w.branches[BranchName(v)];
        assert w.branches[BranchName(v) := head] == w.branches;
        DryPickAll(Picking(head, head, triaged.notes), InOrder(env.chronology, triaged.items.Keys), triaged.items,
                   "rc" + FromNat(NextRc(v, w.tags)), env);
      }
    }
  }

  lemma {:induction false} DryTriage(acc: Triage, items: seq<Task>, env: Env)
    requires AllPrRefs(items)
    ensures TriageAll(acc, items, env, true).notes.saved == acc.notes.saved
    decreases |items|
  {
    hide TriageOne, IsPrRef;
    if items != [] {
      assert AllPrRefs(items[1..]);
      TriageOneDry(acc, items[0], env, true);
      DryTriage(TriageOne(acc, items[0], env, true), items[1..], env);
    }
  }

  lemma {:induction false} DryPickAll(p: Picking, shas: seq<string>, items: map<string, Task>, rc: string, env: Env)
    requires forall s :: s in shas ==> s in items
    ensures PickAll(p, shas, items, rc, env, true).remote == p.remote
    ensures PickAll(p, shas, items, rc, env, true).notes.saved == p.notes.saved
    decreases |shas|
  {
    if shas != [] {
      assert shas[0] in items;
      hide Noted;
      DryPickAll(PickOne(p, shas[0], items[shas[0]].name, rc, env, true), shas[1..], items, rc, env);
    }
  }
}
