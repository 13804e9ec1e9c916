/** What the exit code of a release command tells. */
module ReleaseResults {
  import opened Text
  import opened Decimal
  import opened Checklist
  import opened IssueBody
  import opened GitGraph
  import opened ReleaseSteps
  import opened ReleaseBackportSafety
  import opened ReleaseRuns
  import opened ReleasePicks

  // --------------------------------------------------------- process-backports

  lemma TriageOneCounts(acc: Triage, t: Task, env: Env)
    requires IsPrRef(t.name)
    ensures var r := TriageOne(acc, t, env, false);
            && acc.items.Keys <= r.items.Keys
            && r.notes.failed == acc.notes.failed + (if Resolve(t, env).Failed? then 1 else 0)
            && (Resolve(t, env).ToPick? ==> Resolve(t, env).sha in r.items)
  {
    hide IsPrRef, Resolve;
    var r := Resolve(t, env);
    if r.Failed? {
      NotedFailed(acc.notes.(failed := acc.notes.failed + 1), t.name, false, [Pair("status", r.status)], env);
    }
    hide Noted;
  }

  /** Without a failure, triage keeps the commit of every backport that has one. */
  lemma {:induction false} TriageCollects(acc: Triage, items: seq<Task>, env: Env)
    requires AllPrRefs(items)
    ensures var r := TriageAll(acc, items, env, false);
            && acc.items.Keys <= r.items.Keys && acc.notes.failed <= r.notes.failed
            && (r.notes.failed == acc.notes.failed ==> forall t :: t in items ==> ResolvedIn(t, env, r.items.Keys))
    decreases |items|
  {
    hide IsPrRef, Resolve, TriageOne;
    if items != [] {
      assert AllPrRefs(items[1..]);
      TriageOneCounts(acc, items[0], env);
      TriageCollects(TriageOne(acc, items[0], env, false), items[1..], env);
      assert items == [items[0]] + items[1..];
    }
  }

  /** A backport is waiting for its pull request, or its commit is to be picked. */
  predicate ResolvedIn(t: Task, env: Env, shas: set<string>) {
    IsPrRef(t.name) && (Resolve(t, env).Waiting? || (Resolve(t, env).ToPick? && Resolve(t, env).sha in shas))
  }

  lemma PickOneCounts(p: Picking, sha: string, ref: string, rc: string, env: Env)
    requires p.local == p.remote
    ensures var q := PickOne(p, sha, ref, rc, env, false);
            && p.notes.failed <= q.notes.failed
            && (q.notes.failed == p.notes.failed ==>
                  q.local == q.remote && HasPick(q.remote, sha) && IsAncestor(p.remote, q.remote))
  {
    var outcome := if sha in env.picks then env.picks[sha] else Conflict;
    match outcome {
      case Pushed(s, short) =>
        var c := Commit(s, [p.local], Some(sha));
        NotedFailed(p.notes, ref, true, [Pair("status", "done"), Pair("rc", rc), Pair("commit", short)], env);
        ParentIsAncestor(c, 0);
        GrowsToSelf(c);
        hide Noted, IsAncestor;
        assert HasPick(c, sha);
      case _ =>
        NotedFailed(p.notes.(failed := p.notes.failed + 1), ref, false, [Pair("status", "error-merge-conflict")], env);
        hide Noted, IsAncestor, HasPick;
    }
  }

  /** Without a failure, every commit is picked onto the branch. */
  lemma {:induction false} PickAllPicks(p: Picking, shas: seq<string>, items: map<string, Task>, rc: string, env: Env)
    requires p.local == p.remote && forall s :: s in shas ==> s in items
    ensures var q := PickAll(p, shas, items, rc, env, false);
            && p.notes.failed <= q.notes.failed
            && (q.notes.failed == p.notes.failed ==>
                  IsAncestor(p.remote, q.remote) && forall s :: s in shas ==> HasPick(q.remote, s))
    decreases |shas|
  {
    if shas == [] {
      GrowsToSelf(p.remote);
    } else {
      assert shas[0] in items;
      PickOneCounts(p, shas[0], items[shas[0]].name, rc, env);
      var q := PickOne(p, shas[0], items[shas[0]].name, rc, env, false);
      hide PickOne, IsAncestor, HasPick;
      if q.notes.failed == p.notes.failed {
        PickAllPicks(q, shas[1..], items, rc, env);
        var r := PickAll(q, shas[1..], items, rc, env, false);
        if r.notes.failed == q.notes.failed {
          AncestorTransitive(p.remote, q.remote, r.remote);
          PicksAccumulate(q.remote, r.remote, shas[0]);
          assert shas == [shas[0]] + shas[1..];
        }
      } else {
        FailedGrows(q, shas[1..], items, rc, env);
      }
    }
  }

  lemma {:induction false} FailedGrows(p: Picking, shas: seq<string>, items: map<string, Task>, rc: string, env: Env)
    requires forall s :: s in shas ==> s in items
    ensures p.notes.failed <= PickAll(p, shas, items, rc, env, false).notes.failed
    decreases |shas|
  {
    if shas != [] {
      assert shas[0] in items;
      PickOneFailed(p, shas[0], items[shas[0]].name, rc, env);
      hide PickOne;
      FailedGrows(PickOne(p, shas[0], items[shas[0]].name, rc, env, false), shas[1..], items, rc, env);
    }
  }

  lemma PickOneFailed(p: Picking, sha: string, ref: string, rc: string, env: Env)
    ensures p.notes.failed <= PickOne(p, sha, ref, rc, env, false).notes.failed
  {
    hide Update;
  }

  lemma {:induction false} InOrderHas(chronology: seq<string>, shas: set<string>, s: string)
    requires s in chronology && s in shas
    ensures s in InOrder(chronology, shas)
  {
    if chronology[0] != s { InOrderHas(chronology[1..], shas, s); }
  }

  /** Picking exits with 0 only when every pending backport waits for its pull
      request or is on the branch by then. */
  lemma ZeroMeansPicked(w: World, issue: nat, body: Body, env: Env, t: Task)
    requires issue in w.issues && RunPicks(w, issue, body, env, false).1 == 0 && t in Pending(Backports(body))
    ensures IsPrRef(t.name) && !Resolve(t, env).Failed?
    ensures Resolve(t, env).ToPick? ==>
              && VersionInTitle(w.issues[issue].title).Some?
              && var branch := BranchName(VersionInTitle(w.issues[issue].title).value);
              && branch in RunPicks(w, issue, body, env, false).0.branches
              && HasPick(RunPicks(w, issue, body, env, false).0.branches[branch], Resolve(t, env).sha)
  {
    PendingArePrRefs(body);
    var pending := Pending(Backports(body));
    var start := Triage(map[], Notes(body, w.issues[issue].body, 0));
    var triaged := TriageAll(start, pending, env, false);
    TriageCollects(start, pending, env);
    hide TriageAll, Resolve, VersionInTitle, BranchName, InOrder, NextRc, HasPick, IsAncestor, Pending, Backports,
         IsPrRef;
    if triaged.items != map[] {
      var v := VersionInTitle(w.issues[issue].title).value;
      var head := w.branches[BranchName(v)];
      var shas := InOrder(env.chronology, triaged.items.Keys);
      var rc := "rc" + FromNat(NextRc(v, w.tags));
      PickAllPicks(Picking(head, head, triaged.notes), shas, triaged.items, rc, env);
      assert ResolvedIn(t, env, triaged.items.Keys);
      if Resolve(t, env).ToPick? {
        InOrderHas(env.chronology, triaged.items.Keys, Resolve(t, env).sha);
      }
    } else {
      assert ResolvedIn(t, env, triaged.items.Keys);
    }
  }

  // ------------------------------------------------------- create-rc and cutting

  /** Once the checks have passed the tag is pushed, and only then noted: the exit
      code is 0 exactly when the checklist names the task and can be saved. */
  lemma TaggedBeforeNoted(w: World, issue: nat, v: Version, n: nat, saveFails: bool)
    requires issue in w.issues && BranchName(v) in w.branches
    ensures var (w', code) := TagRc(w, issue, v, n, saveFails);
            && w'.tags == w.tags[RcTag(v, n) := w.branches[BranchName(v)]] && w'.branches == w.branches
            && (code == 0 <==> HasTask(SplitLines(w.issues[issue].body), RcTaskName(n)) && !saveFails)
  {
    hide Named, UpdatedLines, Short, RcTag, RcTaskName, BranchName;
  }

  lemma ZeroMeansGated(w: World, issue: nat, env: Env)
    requires issue in w.issues && GateAndTag(w, issue, env).1 == 0
    ensures VersionInTitle(w.issues[issue].title).Some? && AllSettled(Backports(w.issues[issue].body))
    ensures var v := VersionInTitle(w.issues[issue].title).value;
            && BranchName(v) in w.branches
            && GateAndTag(w, issue, env).0.tags == w.tags[RcTag(v, NextRc(v, w.tags)) := w.branches[BranchName(v)]]
            && GateAndTag(w, issue, env).0.branches == w.branches
  {
    hide VersionInTitle, BranchName, RcTag, NextRc, AllSettled, Backports, LastOfKind, AddRcTask, Update,
         AlreadyTagged, Short, RcTaskName;
  }

  /** What is true after the backports that create-rc starts with. */
  lemma BackportsOnly(w: World, issue: nat, env: Env)
    requires issue in w.issues
    ensures var w' := ProcessBackports(w, issue, [], env, false).0;
            w'.tags == w.tags && issue in w'.issues && w'.issues[issue].title == w.issues[issue].title
            && w'.branches.Keys == w.branches.Keys
  {
    hide Backports, Pending, TriageAll, PickAll, VersionInTitle, NextRc, InOrder, BranchName;
  }

  /** When create-rc exits with 0 there is exactly one new tag, the next candidate,
      at the release branch's head after the picks; that head descends from the one
      before, no other branch has moved, and every pending backport waits for its
      pull request or is in the candidate. */
  lemma ZeroMeansTagged(w: World, issue: nat, env: Env)
    requires CreateRc(w, issue, env).1 == 0
    ensures issue in w.issues && VersionInTitle(w.issues[issue].title).Some?
    ensures var v := VersionInTitle(w.issues[issue].title).value;
            var (b, tag, w') := (BranchName(v), RcTag(v, NextRc(v, w.tags)), CreateRc(w, issue, env).0);
            && b in w.branches && b in w'.branches && IsAncestor(w.branches[b], w'.branches[b])
            && tag !in w.tags && w'.tags == w.tags[tag := w'.branches[b]]
            && (forall n :: n != b ==>
                 (n in w'.branches <==> n in w.branches) && (n in w.branches ==> w'.branches[n] == w.branches[n]))
            && forall t :: t in Pending(Backports(w.issues[issue].body)) ==> PickedOrWaiting(t, env, w'.tags[tag])
  {
    var picked := ProcessBackports(w, issue, [], env, false).0;
    BackportsOnly(w, issue, env);
    assert GateAndTag(picked, issue, env).1 == 0 && CreateRc(w, issue, env) == GateAndTag(picked, issue, env) by {
      hide ProcessBackports, GateAndTag;
    }
    ZeroMeansGated(picked, issue, env);
    var v := VersionInTitle(w.issues[issue].title).value;
    assert BranchName(v) in w.branches.Keys;
    NextTagIsNew(w, v);
    hide GateAndTag, CreateRc, VersionInTitle, BranchName, RcTag, NextRc, IsAncestor, HasPick, PickedOrWaiting;
    ZeroPicksForward(w, issue, v, env);
    hide ProcessBackports;
    BackportIsPickedIff(w, issue, v, env, "");
    forall t | t in Pending(Backports(w.issues[issue].body))
      ensures PickedOrWaiting(t, env, picked.branches[BranchName(v)]) {
      PendingPicked(w, issue, v, env, t);
    }
  }

  /** Of a pending backport once the command has succeeded. */
  ghost predicate PickedOrWaiting(t: Task, env: Env, c: Commit) {
    && IsPrRef(t.name)
    && (Resolve(t, env).Waiting? || (Resolve(t, env).ToPick? && HasPick(c, Resolve(t, env).sha)))
  }

  lemma PendingPicked(w: World, issue: nat, v: Version, env: Env, t: Task)
    requires issue in w.issues && VersionInTitle(w.issues[issue].title) == Some(v) && BranchName(v) in w.branches
    requires ProcessBackports(w, issue, [], env, false).1 == 0 && t in Pending(Backports(w.issues[issue].body))
    ensures BranchName(v) in ProcessBackports(w, issue, [], env, false).0.branches
    ensures PickedOrWaiting(t, env, ProcessBackports(w, issue, [], env, false).0.branches[BranchName(v)])
  {
    hide VersionInTitle, BranchName, RunPicks, HasPick, Pending, Backports, IsPrRef, Resolve;
    BackportIsPickedIff(w, issue, v, env, "");
    ZeroMeansPicked(w, issue, w.issues[issue].body, env, t);
  }

  lemma ZeroPicksForward(w: World, issue: nat, v: Version, env: Env)
    requires issue in w.issues && VersionInTitle(w.issues[issue].title) == Some(v) && BranchName(v) in w.branches
    ensures BranchName(v) in ProcessBackports(w, issue, [], env, false).0.branches
    ensures IsAncestor(w.branches[BranchName(v)], ProcessBackports(w, issue, [], env, false).0.branches[BranchName(v)])
  {
    var (body, head, start) := (w.issues[issue].body, w.branches[BranchName(v)], Start(w, issue, env));
    StartAsks(w, issue, env);
    hide VersionInTitle, BranchName, NextRc, ProcessBackports, GetsToPick, Start, PickOrder, IsAncestor;
    BranchesAfter(w, issue, v, env);
    GrowsToSelf(head);
    PicksMoveForward(Picking(head, head, start.notes), PickOrder(body, env), start.items, "rc"
        + FromNat(NextRc(v, w.tags)), env);
  }

  lemma {:induction false} PicksMoveForward(p: Picking, shas: seq<string>, items: map<string, Task>, rc: string,
                                            env: Env)
    requires IsAncestor(p.remote, p.local) && forall s :: s in shas ==> s in items
    ensures IsAncestor(p.remote, PickAll(p, shas, items, rc, env, false).remote)
    decreases |shas|
  {
    GrowsToSelf(p.remote);
    hide PickOne, IsAncestor, Outcome;
    if shas != [] {
      assert shas[0] in items;
      PickOneIs(p, shas[0], items[shas[0]].name, rc, env);
      var q := PickOne(p, shas[0], items[shas[0]].name, rc, env, false);
      GrowsToSelf(q.remote);
      if !Outcome(env, shas[0]).Conflict? {
        ParentIsAncestor(q.local, 0);
        AncestorTransitive(p.remote, p.local, q.local);
      }
      PicksMoveForward(q, shas[1..], items, rc, env);
      AncestorTransitive(p.remote, q.remote, PickAll(q, shas[1..], items, rc, env, false).remote);
    }
  }

  /** When an unchecked create-release-branch task exits with 0, the branch is at
      the prepared commit, which its former head is an ancestor of, and no other
      branch and no tag has moved. */
  lemma ZeroMeansCut(w: World, issue: nat, env: Env)
    requires issue in w.issues && CreateReleaseBranch(w, issue, env).1 == 0
    requires var t := LastOfKind(SplitLines(w.issues[issue].body), Branching); t.None? || !t.value.checked
    ensures VersionInTitle(w.issues[issue].title).Some?
    ensures var b := BranchName(VersionInTitle(w.issues[issue].title).value);
            var commit := TaskCommit(LastOfKind(SplitLines(w.issues[issue].body), Preparing));
            var w' := CreateReleaseBranch(w, issue, env).0;
            && b in w'.branches && (w'.branches[b].sha == commit
                 || (commit in env.objects && w'.branches[b] == env.objects[commit]))
            && (b in w.branches ==> IsAncestor(w.branches[b], w'.branches[b]))
            && w'.tags == w.tags && forall n :: n != b ==>
                 (n in w'.branches <==> n in w.branches) && (n in w.branches ==> w'.branches[n] == w.branches[n])
  {
    var b := BranchName(VersionInTitle(w.issues[issue].title).value);
    if b in w.branches { GrowsToSelf(w.branches[b]); }
    hide VersionInTitle, BranchName, LastOfKind, TaskCommit, TaskStatus, Update, Short, BranchUrl, IsAncestor;
  }
}
