/** What the exit code of a dry run of process-backports tells. */
module ReleaseDryRun {
  import opened Text
  import opened Decimal
  import opened Checklist
  import opened IssueBody
  import opened GitGraph
  import opened ReleaseSteps
  import opened ReleasePicks
  import opened ReleaseNotes
  import opened ReleaseChecklist

  /** A dry run counts as a real one does, and looks at the same commits. */
  lemma {:induction false} TriageSame(a: Triage, b: Triage, items: seq<Task>, env: Env)
    requires AllPrRefs(items) && a.items == b.items && a.notes.failed == b.notes.failed
    ensures var (r, s) := (TriageAll(a, items, env, true), TriageAll(b, items, env, false));
            r.items == s.items && r.notes.failed == s.notes.failed
    decreases |items|
  {
    hide IsPrRef, Resolve, TriageOne;
    if items != [] {
      assert AllPrRefs(items[1..]);
      TriageOneSame(a, b, items[0], env);
      TriageSame(TriageOne(a, items[0], env, true), TriageOne(b, items[0], env, false), items[1..], env);
    }
  }

  lemma TriageOneSame(a: Triage, b: Triage, t: Task, env: Env)
    requires IsPrRef(t.name) && a.items == b.items && a.notes.failed == b.notes.failed
    ensures var (r, s) := (TriageOne(a, t, env, true), TriageOne(b, t, env, false));
            r.items == s.items && r.notes.failed == s.notes.failed
  {
    hide IsPrRef, Resolve, Noted;
    var r := Resolve(t, env);
    if r.Failed? {
      NotedFailed(b.notes.(failed := b.notes.failed + 1), t.name, false, [Pair("status", r.status)], env);
    }
  }

  /** A pick that a dry run sees go wrong: what happens after a push it cannot see. */
  predicate FailsLocally(env: Env, sha: string) {
    sha !in env.picks || env.picks[sha].Conflict? || env.picks[sha].FailedBeforePush?
  }

  lemma {:induction false} DryPicks(p: Picking, shas: seq<string>, items: map<string, Task>, rc: string, env: Env)
    requires forall s :: s in shas ==> s in items
    ensures var q := PickAll(p, shas, items, rc, env, true);
            && p.notes.failed <= q.notes.failed
            && (q.notes.failed == p.notes.failed <==> forall s :: s in shas ==> !FailsLocally(env, s))
    decreases |shas|
  {
    if shas != [] {
      var q := PickOne(p, shas[0], items[shas[0]].name, rc, env, true);
      assert q.notes.failed == p.notes.failed + if FailsLocally(env, shas[0]) then 1 else 0;
      hide PickOne, FailsLocally;
      DryPicks(q, shas[1..], items, rc, env);
      assert shas == [shas[0]] + shas[1..];
    }
  }

  /** The text that a dry run looks at. */
  ghost predicate WouldWorkOn(w: World, issue: nat, add: seq<AddRef>, body: Body) {
    && issue in w.issues
    && if add == [] then body == w.issues[issue].body else AddAll(w.issues[issue].body, add) == Some(body)
  }

  ghost predicate NoLookupFails(items: seq<Task>, env: Env)
    requires AllPrRefs(items)
  {
    forall k :: 0 <= k < |items| ==> LookupStatus(items[k], env) == None
  }

  ghost predicate NoPickFails(items: seq<Task>, env: Env)
    requires AllPrRefs(items)
  {
    forall k :: 0 <= k < |items| && CommitOf(items[k], env).Some? ==> !FailsLocally(env, CommitOf(items[k], env).value)
  }

  lemma {:induction false} LookupsCounted(items: seq<Task>, env: Env)
    requires AllPrRefs(items)
    ensures Unchecked(LookupEdits(items, env)) == 0 <==> NoLookupFails(items, env)
  {
    hide IsPrRef, LookupEdit, LookupStatus, Unchecked;
    UncheckedIs(LookupEdits(items, env));
    forall e ensures e in LookupEdits(items, env) <==> exists j :: 0 <= j < |items| && e in LookupEdit(items[j], env) {
      LookupEditsHas(items, env, e);
    }
    hide LookupEdits;
    if j :| 0 <= j < |items| && LookupStatus(items[j], env).Some? {
      var e := Edit(items[j].name, false, [Pair("status", LookupStatus(items[j], env).value)]);
      LookupEditIs(items[j], env, e);
      assert e in LookupEdits(items, env) && !e.checked;
    }
    if e :| e in LookupEdits(items, env) {
      var j :| 0 <= j < |items| && e in LookupEdit(items[j], env);
      LookupEditIs(items[j], env, e);
    }
  }

  /** The notes that a dry run counts up. */
  ghost function DryNotes(w: World, issue: nat, v: Version, body: Body, env: Env): Notes
    requires issue in w.issues
  {
    PendingArePrRefs(body);
    var items := Pending(Backports(body));
    var asked := Asked(items, env);
    var triaged := TriageAll(Triage(map[], Notes(body, w.issues[issue].body, 0)), items, env, true).notes;
    if PicksRun(w, BranchName(v), asked, env) then
      var head := w.branches[BranchName(v)];
      InAsked(env, asked);
      PickAll(Picking(head, head, triaged), InOrder(env.chronology, asked), Askers(items, env),
              "rc" + FromNat(NextRc(v, w.tags)), env, true).notes
    else triaged
  }

  lemma DryRunCounts(w: World, issue: nat, v: Version, body: Body, env: Env)
    requires issue in w.issues && VersionInTitle(w.issues[issue].title) == Some(v)
    ensures var asked := Asked(Pending(Backports(body)), env);
            RunPicks(w, issue, body, env, true).1 == 0 <==>
              DryNotes(w, issue, v, body, env).failed == 0 && (asked == {} || PicksRun(w, BranchName(v), asked, env))
  {
    var items := Pending(Backports(body));
    PendingArePrRefs(body);
    var start := Triage(map[], Notes(body, w.issues[issue].body, 0));
    TriageSame(start, start, items, env);
    TriageIsAskers(start.notes, items, env);
    NothingAsked(env);
    hide AllPrRefs, Asked, Askers, Backports, Pending, VersionInTitle, BranchName, NextRc, InOrder, AllKnown, PickAll;
    assert Askers(items, env) == map[] <==> Asked(items, env) == {};
    if items != [] { hide TriageAll; }
  }

  lemma DryLookups(items: seq<Task>, env: Env, body: Body, stored: Body)
    requires AllPrRefs(items) && AllListedIn(items, body)
    ensures TriageAll(Triage(map[], Notes(body, stored, 0)), items, env, true).notes.failed
            == Unchecked(LookupEdits(items, env))
  {
    var (a, b) := (Triage(map[], Notes(body, stored, 0)), Triage(map[], Notes(body, body, 0)));
    TriageSame(a, b, items, env);
    assert NotesAre(b.notes, body, [], env) by { NothingEdited(body); }
    assert [] + LookupEdits(items, env) == LookupEdits(items, env);
    hide AllPrRefs, AllListedIn, TriageAll, LookupEdits, IsEdited, Stored, Unchecked;
    TriageNotes(b, items, env, body, []);
  }

  lemma DryPicksAll(items: seq<Task>, env: Env)
    requires AllPrRefs(items) && AllKnown(Asked(items, env), env.chronology)
    ensures (forall s :: s in InOrder(env.chronology, Asked(items, env)) ==> !FailsLocally(env, s)) <==>
              NoPickFails(items, env)
  {
    AskedIs(items, env);
    var asked := Asked(items, env);
    forall s ensures s in InOrder(env.chronology, asked) <==> s in asked { InOrderIs(env.chronology, asked, s); }
    hide IsPrRef, CommitOf, Asked, InOrder, FailsLocally;
    if k :| 0 <= k < |items| && CommitOf(items[k], env).Some? && FailsLocally(env, CommitOf(items[k], env).value) {
      assert items[k] in items && CommitOf(items[k], env).value in asked;
    }
  }

  /** A dry run exits with 0 exactly when no lookup of a pending backport fails and
      either none gives a commit or the picks are reached and none of them goes
      wrong before its push. */
  lemma DryRunExits(w: World, issue: nat, v: Version, add: seq<AddRef>, env: Env, body: Body)
    requires WouldWorkOn(w, issue, add, body) && VersionInTitle(w.issues[issue].title) == Some(v)
    ensures AllPrRefs(Pending(Backports(body)))
    ensures var items := Pending(Backports(body));
            ProcessBackports(w, issue, add, env, true).1 == 0 <==>
              && NoLookupFails(items, env)
              && ((forall k :: 0 <= k < |items| ==> CommitOf(items[k], env) == None)
                  || (Reached(w, v, items, env) && NoPickFails(items, env)))
  {
    var items := Pending(Backports(body));
    PendingListed(body);
    DryRunsOn(w, issue, add, env, body);
    DryRunCounts(w, issue, v, body, env);
    DryFailures(w, issue, v, body, env);
    WhenPicksRun(w, v, items, env);
    hide *;
  }

  lemma DryRunsOn(w: World, issue: nat, add: seq<AddRef>, env: Env, body: Body)
    requires WouldWorkOn(w, issue, add, body)
    ensures ProcessBackports(w, issue, add, env, true).1 == RunPicks(w, issue, body, env, true).1
  {
    hide RunPicks, AddAll;
  }

  lemma WhenPicksRun(w: World, v: Version, items: seq<Task>, env: Env)
    requires AllPrRefs(items)
    ensures var asked := Asked(items, env);
            && (asked == {} <==> forall k :: 0 <= k < |items| ==> CommitOf(items[k], env) == None)
            && (PicksRun(w, BranchName(v), asked, env) <==> asked != {} && Reached(w, v, items, env))
  {
    AskedIs(items, env);
    hide IsPrRef, CommitOf, Asked, Reached, BranchName, AllKnown;
    if k :| 0 <= k < |items| && CommitOf(items[k], env).Some? {
      ReachedIs(w, v, items, env, k);
    }
  }

  lemma DryFailures(w: World, issue: nat, v: Version, body: Body, env: Env)
    requires issue in w.issues && AllPrRefs(Pending(Backports(body)))
    ensures var items := Pending(Backports(body));
            DryNotes(w, issue, v, body, env).failed == 0 <==>
              NoLookupFails(items, env)
                  && (PicksRun(w, BranchName(v), Asked(items, env), env) ==> NoPickFails(items, env))
  {
    var items := Pending(Backports(body));
    PendingListed(body);
    DryLookups(items, env, body, w.issues[issue].body);
    LookupsCounted(items, env);
    hide AllPrRefs, AllListedIn, TriageAll, LookupEdits, Unchecked, NoLookupFails, NoPickFails, Backports, Pending,
         BranchName, NextRc, InOrder, Askers, Asked, PickAll, AllKnown, FailsLocally;
    var asked := Asked(items, env);
    if PicksRun(w, BranchName(v), asked, env) {
      var (head, notes) := (w.branches[BranchName(v)],
                            TriageAll(Triage(map[], Notes(body, w.issues[issue].body, 0)), items, env, true).notes);
      InAsked(env, asked);
      DryPicks(Picking(head, head, notes), InOrder(env.chronology, asked), Askers(items, env),
               "rc" + FromNat(NextRc(v, w.tags)), env);
      DryPicksAll(items, env);
    }
  }
}
