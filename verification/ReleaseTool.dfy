/** The release commands as they run: step by step against the remote. */
module ReleaseTool {
  import opened Text
  import opened Decimal
  import opened Sorting
  import opened Checklist
  import opened IssueBody
  import opened GitGraph
  import opened ReleaseSteps

  class Remote {
    var branches: map<string, Commit>
    var tags: map<string, Commit>
    var issues: map<nat, Issue>

    function State(): World reads this {
      World(branches, tags, issues)
    }

    method UpdateIssueBody(issue: nat, body: Body)
      requires issue in issues
      modifies this`issues
      ensures State() == WithBody(old(State()), issue, body)
    {
      issues := issues[issue := issues[issue].(body := body)];
    }

    /** `get_latest_rc_tag`: the last of the highest in listing order. */
    method GetLatestRcTag(v: Version) returns (latest: Option<string>)
      ensures latest == LatestRcTag(v, tags)
    {
      hide IsRcTag, RcNumber, Sorted;
      var listed := Sorted(tags.Keys);
      latest := None;
      for i := 0 to |listed|
        invariant latest == LatestOf(v, listed[..i])
      {
        assert listed[..i + 1][..i] == listed[..i];
        if IsRcTag(v, listed[i]) && (latest.None? || RcNumber(v, latest.value) <= RcNumber(v, listed[i])) {
          latest := Some(listed[i]);
        }
      }
      assert listed[..|listed|] == listed;
    }

    method NextRcNumber(v: Version) returns (n: nat)
      ensures n == NextRc(v, tags)
    {
      var latest := GetLatestRcTag(v);
      if latest.None? { return 0; }
      n := RcNumber(v, latest.value) + 1;
    }

    method RunCreateReleaseBranch(issue: nat, env: Env) returns (code: int)
      modifies this
      ensures (State(), code) == CreateReleaseBranch(old(State()), issue, env)
    {
      hide LastOfKind, VersionInTitle, IsAncestor, Update, Short, BranchUrl, BranchName, SplitLines, TaskStatus,
           TaskCommit;
      if issue !in issues { return 1; }
      var body := issues[issue].body;
      var state := ParseChecklistState(SplitLines(body));
      if TaskStatus(state.prepare) != Some("done") || TaskCommit(state.prepare) == "" { return 1; }
      if state.createBranch.Some? && state.createBranch.value.checked { return 0; }
      var version := VersionInTitle(issues[issue].title);
      if version.None? { return 1; }
      var branch := BranchName(version.value);
      var commit := TaskCommit(state.prepare);
      if branch !in branches || branches[branch].sha != commit {
        if commit !in env.objects { return 1; }
        if branch in branches && !IsAncestor(branches[branch], env.objects[commit]) { return 1; }
        branches := branches[branch := env.objects[commit]];
      }
      var md := [Pair("status", "done"), Pair("branch_url", BranchUrl(version.value)), Pair("commit", Short(commit))];
      var updated := Update(body, "Create Release branch", true, md);
      if updated.None? || env.closingFails { return 1; }
      UpdateIssueBody(issue, updated.value);
      code := 0;
    }

    /** `_process_pr_commit_infos`. */
    method ProcessPrCommitInfos(issue: nat, pending: seq<Task>, body: Body, env: Env, dryRun: bool)
      returns (triaged: Triage)
      requires issue in issues && AllPrRefs(pending)
      modifies this`issues
      ensures triaged == TriageAll(Triage(map[], Notes(body, old(issues[issue].body), 0)), pending, env, dryRun)
      ensures State() == WithBody(old(State()), issue, triaged.notes.saved)
    {
      hide IsPrRef, Update, Resolve;
      triaged := Triage(map[], Notes(body, issues[issue].body, 0));
      ghost var start := triaged;
      ghost var before := State();
      assert before.issues[issue := before.issues[issue]] == before.issues;
      for i := 0 to |pending|
        invariant issue in issues && State() == WithBody(before, issue, triaged.notes.saved)
        invariant AllPrRefs(pending[i..])
                  && TriageAll(triaged, pending[i..], env, dryRun) == TriageAll(start, pending, env, dryRun)
      {
        assert pending[i..][0] == pending[i] && pending[i..][1..] == pending[i + 1..];
        assert AllPrRefs(pending[i + 1..]);
        match Resolve(pending[i], env) {
          case ToPick(sha) => triaged := triaged.(items := triaged.items[sha := pending[i]]);
          case Waiting =>
          case Failed(status) =>
            triaged := triaged.(notes := triaged.notes.(failed := triaged.notes.failed + 1));
            if !dryRun {
              var notes := Note(issue, triaged.notes, pending[i].name, false, [Pair("status", status)], env);
              triaged := triaged.(notes := notes);
            }
        }
      }
    }

    /** A task update whose failure is only logged: the text in hand changes
        although saving it may fail. */
    method Note(issue: nat, notes: Notes, ref: string, checked: bool, md: Metadata, env: Env) returns (noted: Notes)
      requires issue in issues && issues[issue].body == notes.saved
      modifies this`issues
      ensures noted == Noted(notes, ref, checked, md, env)
      ensures State() == WithBody(old(State()), issue, noted.saved)
    {
      hide Update;
      assert issues[issue := issues[issue]] == issues;
      noted := notes;
      var updated := Update(notes.body, ref, checked, md);
      if updated.Some? {
        noted := noted.(body := updated.value);
        if ref !in env.saveFails {
          UpdateIssueBody(issue, updated.value);
          noted := noted.(saved := updated.value);
        }
      }
    }

    /** One turn of the loop of `_cherry_pick_and_update_prs`: the `try` part,
        then, if it raised, the handler. */
    method CherryPick(p: Picking, issue: nat, branch: string, sha: string, ref: string, rc: string, env: Env,
                      dryRun: bool)
      returns (q: Picking)
      requires issue in issues && issues[issue].body == p.notes.saved && branch in branches
               && branches[branch] == p.remote
      modifies this`issues, this`branches
      ensures q == PickOne(p, sha, ref, rc, env, dryRun)
      ensures State() == WithBody(old(State()).(branches := old(branches)[branch := q.remote]), issue, q.notes.saved)
    {
      hide Noted, IsAncestor;
      assert issues[issue := issues[issue]] == issues && branches[branch := branches[branch]] == branches;
      q := p;
      var outcome := if sha in env.picks then env.picks[sha] else Conflict;
      var raised := outcome.Conflict? || outcome.FailedBeforePush?;
      if !outcome.Conflict? {
        var c := Commit(outcome.sha, [q.local], Some(sha));
        q := q.(local := c);
        if !dryRun && !outcome.FailedBeforePush? {
          branches := branches[branch := c];
          q := q.(remote := c);
          if outcome.Pushed? {
            var notes := Note(issue, q.notes, ref, true,
                [Pair("status", "done"), Pair("rc", rc), Pair("commit", outcome.short)], env);
            q := q.(notes := notes);
          } else {
            raised := true;
          }
        }
      }
      if raised {
        q := q.(notes := q.notes.(failed := q.notes.failed + 1));
        if !dryRun {
          var notes := Note(issue, q.notes, ref, false, [Pair("status", "error-merge-conflict")], env);
          q := q.(notes := notes);
        }
      }
    }

    /** `_cherry_pick_and_update_prs`. */
    method CherryPickAndUpdatePrs(issue: nat, branch: string, shas: seq<string>, items: map<string, Task>, notes: Notes,
                                  rc: string, env: Env, dryRun: bool) returns (failed: nat)
      requires issue in issues && issues[issue].body == notes.saved && branch in branches
      requires forall s :: s in shas ==> s in items
      modifies this`issues, this`branches
      ensures var done := PickAll(Picking(old(branches[branch]), old(branches[branch]), notes), shas, items, rc, env,
              dryRun);
              && State() == WithBody(old(State()).(branches := old(branches)[branch := done.remote]), issue,
                   done.notes.saved)
              && failed == done.notes.failed
    {
      hide PickAll, PickOne;
      ghost var before := State();
      var p := Picking(branches[branch], branches[branch], notes);
      ghost var start := p;
      assert before.issues[issue := before.issues[issue]] == before.issues;
      assert before.branches[branch := p.remote] == before.branches;
      for i := 0 to |shas|
        invariant State() == WithBody(before.(branches := before.branches[branch := p.remote]), issue, p.notes.saved)
        invariant PickAll(p, shas[i..], items, rc, env, dryRun) == PickAll(start, shas, items, rc, env, dryRun)
      {
        PickAllStep(p, shas, i, items, rc, env, dryRun);
        p := CherryPick(p, issue, branch, shas[i], items[shas[i]].name, rc, env, dryRun);
      }
      PickAllDone(p, shas, items, rc, env, dryRun);
      failed := p.notes.failed;
    }

    method AddBackportsAndTasks(body: Body, add: seq<AddRef>) returns (updated: Option<Body>)
      ensures updated == AddAll(body, add)
    {
      hide AddBackports, AddSyncTask, AddRcTask, NextRcTask, HasPendingRc;
      var items := seq(|add|, i requires 0 <= i < |add| => AddedItem(add[i]));
      updated := AddBackportsToBody(body, items);
      if updated.None? { return; }
      var added := updated.value;
      for i := 0 to |add|
        invariant updated.Some? && updated == AddSyncTasks(added, add[..i])
      {
        assert add[..i + 1][..i] == add[..i];
        if add[i].PrNum? {
          updated := AddSyncTaskToBody(updated.value, add[i].n);
          if updated.None? {
            SyncTasksStuck(added, add, i + 1);
            return;
          }
        }
      }
      assert add[..|add|] == add;
      var lines := SplitLines(updated.value);
      if !HasPendingRc(lines) {
        updated := AddRcTaskToBody(updated.value, NextRcTask(lines));
      }
    }

    method SelectPending(items: seq<Task>) returns (pending: seq<Task>)
      ensures pending == Pending(items)
    {
      hide IsPending;
      pending := [];
      for i := 0 to |items|
        invariant pending + Pending(items[i..]) == Pending(items)
      {
        assert items[i..][0] == items[i] && items[i..][1..] == items[i + 1..];
        if IsPending(items[i]) { pending := pending + [items[i]]; }
      }
    }

    method RunProcessBackports(issue: nat, add: seq<AddRef>, env: Env, dryRun: bool) returns (code: int)
      modifies this
      ensures (State(), code) == ProcessBackports(old(State()), issue, add, env, dryRun)
    {
      hide AddAll, RunPicks;
      if issue !in issues { return 1; }
      var body := issues[issue].body;
      if add != [] {
        var updated := AddBackportsAndTasks(body, add);
        if updated.None? || (env.addingFails && !dryRun) { return 1; }
        body := updated.value;
        if !dryRun { UpdateIssueBody(issue, body); }
      }
      code := PickPending(issue, body, env, dryRun);
    }

    method PickPending(issue: nat, body: Body, env: Env, dryRun: bool) returns (code: int)
      requires issue in issues
      modifies this
      ensures (State(), code) == RunPicks(old(State()), issue, body, env, dryRun)
    {
      hide Backports, Pending, TriageAll, PickAll, VersionInTitle, NextRc, InOrder, BranchName;
      var items := ParseBackports(body);
      var pending := SelectPending(items);
      if pending == [] { return 0; }
      var version := VersionInTitle(issues[issue].title);
      if version.None? { return 1; }
      PendingArePrRefs(body);
      var n := NextRcNumber(version.value);
      var triaged := ProcessPrCommitInfos(issue, pending, body, env, dryRun);
      if triaged.items == map[] { return ExitCode(triaged.notes.failed); }
      var branch := BranchName(version.value);
      if env.dirty || !AllKnown(triaged.items.Keys, env.chronology) || branch !in branches { return 1; }
      var shas := InOrder(env.chronology, triaged.items.Keys);
      ghost var noted := State();
      var failed := CherryPickAndUpdatePrs(issue, branch, shas, triaged.items, triaged.notes, "rc" + FromNat(n), env,
          dryRun);
      code := ExitCode(failed);
      assert noted == WithBody(old(State()), issue, triaged.notes.saved);
      RewrittenOnce(old(State()), noted, State(), issue);
    }

    method RunCreateRc(issue: nat, env: Env) returns (code: int)
      modifies this
      ensures (State(), code) == CreateRc(old(State()), issue, env)
    {
      hide ProcessBackports, GateAndTag;
      code := RunProcessBackports(issue, [], env, false);
      if code != 0 { return; }
      if issue !in issues { return 1; }
      code := TagNext(issue, env);
    }

    method TagNext(issue: nat, env: Env) returns (code: int)
      requires issue in issues
      modifies this
      ensures (State(), code) == GateAndTag(old(State()), issue, env)
    {
      hide LastOfKind, VersionInTitle, NextRc, Backports, AddRcTask, Update, BranchName, RcTag, Settled, Short;
      var body := issues[issue].body;
      var state := ParseChecklistState(SplitLines(body));
      if TaskStatus(state.prepare) != Some("done") || TaskStatus(state.createBranch) != Some("done") { return 1; }
      var backports := ParseBackports(body);
      if !AllSettled(backports) { return 1; }
      var version := VersionInTitle(issues[issue].title);
      if version.None? { return 1; }
      var v := version.value;
      var n := NextRcNumber(v);
      assert LastOfKind(SplitLines(body), Rc(n)) == if n in state.rcTags then Some(state.rcTags[n]) else None;
      if n !in state.rcTags {
        var added := AddRcTaskToBody(body, n);
        if added.None? || env.addingFails { return 1; }
        body := added.value;
        UpdateIssueBody(issue, body);
      } else if AlreadyTagged(state.rcTags[n]) {
        return 1;
      }
      if BranchName(v) !in branches { return 1; }
      var head := branches[BranchName(v)];
      tags := tags[RcTag(v, n) := head];
      var updated := Update(body, RcTaskName(n), true,
          [Pair("status", "done"), Pair("tag", RcTag(v, n)), Pair("commit", Short(head.sha))]);
      if updated.None? || env.closingFails { return 1; }
      UpdateIssueBody(issue, updated.value);
      code := 0;
    }

    method RunPromote(version: Option<Version>, issue: Option<nat>, saveFails: bool, dryRun: bool) returns (code: int)
      modifies this
      ensures (State(), code) == Promote(old(State()), version, issue, saveFails, dryRun)
    {
      hide VersionInTitle, LatestRcTag, Update, BranchName, VersionText, IsFirstRelease, Short, PromotedVersion;
      var promoted := PromotedVersion(State(), version, issue);
      if promoted.None? { return 1; }
      var v := promoted.value;
      if VersionText(v) in tags { return 1; }
      if issue.None? || issue.value !in issues { return 1; }
      var latest := GetLatestRcTag(v);
      if IsFirstRelease(v) && latest.None? { return 1; }
      var body := issues[issue.value].body;
      if BranchName(v) !in branches { return 1; }
      var head := branches[BranchName(v)];
      if IsFirstRelease(v) && tags[latest.value] != head {
        var rc := tags[latest.value];
        var refused := Update(body, "Tag Final", false,
          [Pair("status", "error-rc-tag-not-branch-head"), Pair("rc", latest.value),
           Pair("branch_commit", Short(head.sha)), Pair("tag_commit", Short(rc.sha))]);
        if refused.Some? && !saveFails && !dryRun { UpdateIssueBody(issue.value, refused.value); }
        return 1;
      }
      var updated := Update(body, "Tag Final", true,
          [Pair("status", "done"), Pair("tag", VersionText(v)), Pair("commit", Short(head.sha))]);
      if updated.None? { return 1; }
      if dryRun { return 0; }
      tags := tags[VersionText(v) := head];
      if saveFails { return 1; }
      UpdateIssueBody(issue.value, updated.value);
      code := 0;
    }
  }

  lemma PickAllStep(p: Picking, shas: seq<string>, i: nat, items: map<string, Task>, rc: string, env: Env, dryRun: bool)
    requires i < |shas| && forall s :: s in shas ==> s in items
    ensures PickAll(p, shas[i..], items, rc, env, dryRun)
            == PickAll(PickOne(p, shas[i], items[shas[i]].name, rc, env, dryRun), shas[i + 1..], items, rc, env, dryRun)
  {
    hide PickOne;
    assert shas[i..][0] == shas[i] && shas[i..][1..] == shas[i + 1..];
  }

  lemma PickAllDone(p: Picking, shas: seq<string>, items: map<string, Task>, rc: string, env: Env, dryRun: bool)
    requires forall s :: s in shas ==> s in items
    ensures PickAll(p, shas[|shas|..], items, rc, env, dryRun) == p
  {
  }

  /** Of two rewrites of a body the second one stands. */
  lemma RewrittenOnce(w: World, noted: World, done: World, issue: nat)
    requires issue in w.issues && issue in noted.issues && issue in done.issues
    requires noted == WithBody(w, issue, noted.issues[issue].body)
    requires done.issues == noted.issues[issue := noted.issues[issue].(body := done.issues[issue].body)]
    ensures done.issues == w.issues[issue := w.issues[issue].(body := done.issues[issue].body)]
  {
  }

  lemma {:induction false} SyncTasksStuck(body: Body, refs: seq<AddRef>, k: nat)
    requires k <= |refs| && AddSyncTasks(body, refs[..k]) == None
    ensures AddSyncTasks(body, refs) == None
    decreases |refs|
  {
    hide AddSyncTask;
    if k == |refs| {
      assert refs[..k] == refs;
    } else {
      var front := refs[..|refs| - 1];
      assert front[..k] == refs[..k];
      SyncTasksStuck(body, front, k);
    }
  }
}
