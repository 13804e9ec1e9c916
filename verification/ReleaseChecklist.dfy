/** What a run of process-backports lets the tracking issue say of each backport,
    told from GitHub's answers and the outcomes of the picks alone. */
module ReleaseChecklist {
  import opened Text
  import opened Decimal
  import opened Checklist
  import opened IssueBody
  import opened GitGraph
  import opened ReleaseSteps
  import opened ReleasePicks
  import opened ReleaseNotes

  // -------------------------------------------------- what a pull request tells

  function Pr(t: Task, env: Env): Option<PrState>
    requires IsPrRef(t.name)
  {
    if PrNumber(t.name) in env.prs then Some(env.prs[PrNumber(t.name)]) else None
  }

  predicate NotesCommit(t: Task) {
    Get(t.metadata, "commit").Some? && Get(t.metadata, "commit") != Some("")
  }

  /** The commit to pick: the merge commit, or without one what the line notes. */
  function CommitOf(t: Task, env: Env): Option<string>
    requires IsPrRef(t.name)
  {
    match Pr(t, env)
    case Some(Merged(oid)) => if oid == "" then None else Some(oid)
    case _ => if NotesCommit(t) then Get(t.metadata, "commit") else None
  }

  /** The status of a backport that can neither be picked nor waits. */
  function LookupStatus(t: Task, env: Env): Option<string>
    requires IsPrRef(t.name)
  {
    if CommitOf(t, env).Some? then None
    else match Pr(t, env)
      case None => Some("error-not-found")
      case Some(Open) => None
      case Some(Draft) => None
      case Some(Closed) => Some("error-closed-pr")
      case Some(Merged(_)) => Some("resolved")
      case Some(MergedWithoutCommit) => Some("error-no-merge-commit")
      case Some(UnknownState) => Some("error-unknown")
      case Some(LookupFailed) => Some("error-resolution-failed")
  }

  lemma ResolveIs(t: Task, env: Env)
    requires IsPrRef(t.name)
    ensures forall sha :: Resolve(t, env) == ToPick(sha) <==> CommitOf(t, env) == Some(sha)
    ensures forall status :: Resolve(t, env) == Failed(status) <==> LookupStatus(t, env) == Some(status)
  {
    hide IsPrRef, PrNumber, Get;
  }

  // ------------------------------------------------------------- what it becomes

  /** No two pending backports are listed under one name. */
  ghost predicate NamesDiffer(items: seq<Task>) {
    forall j, k :: 0 <= j < k < |items| ==> Lower(items[j].name) != Lower(items[k].name)
  }

  /** The run gets as far as its picks. */
  ghost predicate Reached(w: World, v: Version, items: seq<Task>, env: Env)
    requires AllPrRefs(items)
  {
    && !env.dirty && BranchName(v) in w.branches
    && forall t :: t in items ==>
         (IsPrRef(t.name) && CommitOf(t, env).Some? ==> CommitOf(t, env).value in env.chronology)
  }

  ghost predicate AskedLater(items: seq<Task>, k: nat, env: Env)
    requires k < |items| && AllPrRefs(items)
  {
    exists j :: k < j < |items| && CommitOf(items[j], env) == CommitOf(items[k], env)
  }

  /** What a pending backport's line says after the run; None is what it said before.
      Of several backports with one commit only the last is noted. */
  ghost function Becomes(w: World, v: Version, items: seq<Task>, k: nat, env: Env): Option<Task>
    requires k < |items| && AllPrRefs(items)
  {
    var t := items[k];
    if LookupStatus(t, env).Some? then Some(Task(false, t.name, [Pair("status", LookupStatus(t, env).value)]))
    else if CommitOf(t, env).None? || !Reached(w, v, items, env) || AskedLater(items, k, env) then None
    else
      var sha := CommitOf(t, env).value;
      if sha in env.picks && env.picks[sha].Pushed? then
        Some(Task(true, t.name, [Pair("status", "done"), Pair("rc", "rc" + FromNat(NextRc(v, w.tags))),
                                 Pair("commit", env.picks[sha].short)]))
      else Some(Task(false, t.name, [Pair("status", "error-merge-conflict")]))
  }

  function EditOf(t: Task): Edit {
    Edit(t.name, t.checked, t.metadata)
  }

  // ------------------------------------------------------ the edits of one name

  lemma {:induction false} LookupEditsHas(items: seq<Task>, env: Env, e: Edit)
    requires AllPrRefs(items)
    ensures e in LookupEdits(items, env) <==> exists j :: 0 <= j < |items| && e in LookupEdit(items[j], env)
  {
    hide IsPrRef, LookupEdit;
    if items != [] {
      var rest := items[1..];
      assert AllPrRefs(rest);
      LookupEditsHas(rest, env, e);
      if j :| 0 <= j < |rest| && e in LookupEdit(rest[j], env) { assert e in LookupEdit(items[j + 1], env); }
      if j :| 0 <= j < |items| && e in LookupEdit(items[j], env) {
        if j > 0 { assert e in LookupEdit(rest[j - 1], env); }
      }
    }
  }

  lemma {:induction false} PickEditsHas(shas: seq<string>, items: map<string, Task>, rc: string, env: Env, e: Edit)
    requires forall s :: s in shas ==> s in items
    ensures e in PickEdits(shas, items, rc, env) <==> exists s :: s in shas && e == PickEdit(items[s].name, s, rc, env)
  {
    hide PickEdit;
    if shas != [] {
      var rest := shas[1..];
      assert shas == [shas[0]] + rest;
      PickEditsHas(rest, items, rc, env, e);
    }
  }

  lemma LookupEditIs(t: Task, env: Env, e: Edit)
    requires IsPrRef(t.name)
    ensures e in LookupEdit(t, env) <==>
              LookupStatus(t, env).Some? && e == Edit(t.name, false, [Pair("status", LookupStatus(t, env).value)])
  {
    ResolveIs(t, env);
    hide Resolve, LookupStatus, CommitOf, IsPrRef;
  }

  lemma ReachedIs(w: World, v: Version, items: seq<Task>, env: Env, k: nat)
    requires k < |items| && AllPrRefs(items) && CommitOf(items[k], env).Some?
    ensures PicksRun(w, BranchName(v), Asked(items, env), env) <==> Reached(w, v, items, env)
    ensures CommitOf(items[k], env).value in Asked(items, env)
  {
    forall t | t in items && IsPrRef(t.name) ensures forall sha :: Resolve(t, env) == ToPick(sha) <==>
        CommitOf(t, env) == Some(sha) {
      ResolveIs(t, env);
    }
    hide IsPrRef, CommitOf, Resolve, BranchName;
    AskedIs(items, env);
    assert items[k] in items;
  }

  lemma AskedIs(items: seq<Task>, env: Env)
    requires AllPrRefs(items)
    ensures forall sha :: sha in Asked(items, env) <==>
              exists t :: t in items && IsPrRef(t.name) && CommitOf(t, env) == Some(sha)
  {
    forall t | t in items && IsPrRef(t.name) ensures forall sha :: Resolve(t, env) == ToPick(sha) <==>
        CommitOf(t, env) == Some(sha) {
      ResolveIs(t, env);
    }
    hide IsPrRef, CommitOf, Resolve;
    forall sha | exists t :: t in items && IsPrRef(t.name) && CommitOf(t, env) == Some(sha)
      ensures sha in Asked(items, env) {
      var t :| t in items && IsPrRef(t.name) && CommitOf(t, env) == Some(sha);
      assert Resolve(t, env).sha == sha;
    }
  }

  /** A commit is noted for the last backport that asks for it. */
  lemma AskerOf(items: seq<Task>, env: Env, sha: string)
    requires AllPrRefs(items) && sha in Asked(items, env)
    ensures exists m :: 0 <= m < |items| && Askers(items, env)[sha] == items[m]
                        && CommitOf(items[m], env) == Some(sha) && !AskedLater(items, m, env)
  {
    AskerIs(items, env, sha);
    AskedIff(items, env, sha);
    var t := Asker(items, env, sha).value;
    hide IsPrRef, CommitOf, Resolve, Asked, Asker;
    forall j | 0 <= j < |items| ensures Resolve(items[j], env) == ToPick(sha) <==>
        CommitOf(items[j], env) == Some(sha) {
      ResolveIs(items[j], env);
    }
    var m :| 0 <= m < |items| && items[m] == t && Resolve(t, env) == ToPick(sha)
             && forall j :: m < j < |items| ==> Resolve(items[j], env) != ToPick(sha);
    assert !AskedLater(items, m, env);
  }

  /** The edit that a pending backport's fate comes to. */
  lemma BecomesByPick(w: World, v: Version, items: seq<Task>, k: nat, env: Env)
    requires k < |items| && AllPrRefs(items) && CommitOf(items[k], env).Some?
    requires Reached(w, v, items, env) && !AskedLater(items, k, env)
    ensures Becomes(w, v, items, k, env).Some?
    ensures EditOf(Becomes(w, v, items, k, env).value)
            == PickEdit(items[k].name, CommitOf(items[k], env).value, "rc" + FromNat(NextRc(v, w.tags)), env)
  {
    assert LookupStatus(items[k], env).None?;
    hide IsPrRef, CommitOf, LookupStatus, Reached, AskedLater, NextRc;
  }

  lemma BecomesByLookup(w: World, v: Version, items: seq<Task>, k: nat, env: Env, e: Edit)
    requires k < |items| && AllPrRefs(items)
    ensures e in LookupEdit(items[k], env) <==>
              LookupStatus(items[k], env).Some? && Becomes(w, v, items, k, env).Some?
              && e == EditOf(Becomes(w, v, items, k, env).value)
  {
    LookupEditIs(items[k], env, e);
    hide IsPrRef, CommitOf, LookupStatus, Reached, AskedLater, NextRc, LookupEdit;
  }

  ghost predicate InLookups(items: seq<Task>, env: Env, e: Edit)
    requires AllPrRefs(items)
  {
    e in LookupEdits(items, env)
  }

  ghost predicate InPicks(w: World, v: Version, items: seq<Task>, env: Env, e: Edit)
    requires AllPrRefs(items)
  {
    && PicksRun(w, BranchName(v), Asked(items, env), env)
    && e in PickEdits(InOrder(env.chronology, Asked(items, env)), Askers(items, env),
                      "rc" + FromNat(NextRc(v, w.tags)), env)
  }

  lemma RunEditsSplit(w: World, v: Version, items: seq<Task>, env: Env, e: Edit)
    requires AllPrRefs(items)
    ensures e in RunEdits(w, v, items, env) <==> InLookups(items, env, e) || InPicks(w, v, items, env, e)
  {
    hide AllPrRefs, LookupEdits, PickEdits, Askers, Asked, BranchName, NextRc, PicksRun, InOrder;
  }

  lemma LookupsOf(w: World, v: Version, items: seq<Task>, k: nat, env: Env, e: Edit)
    requires k < |items| && AllPrRefs(items) && NamesDiffer(items) && InLookups(items, env, e)
             && IsFor(e, items[k].name)
    ensures Becomes(w, v, items, k, env).Some? && e == EditOf(Becomes(w, v, items, k, env).value)
  {
    LookupEditsHas(items, env, e);
    hide IsPrRef, LookupEdit, Becomes, LookupEdits, Lower, LookupStatus;
    var j :| 0 <= j < |items| && e in LookupEdit(items[j], env);
    LookupEditIs(items[j], env, e);
    assert j == k;
    BecomesByLookup(w, v, items, k, env, e);
  }

  /** An edit by the loop of picks is that of the last backport with its commit. */
  ghost predicate PickedFor(w: World, v: Version, items: seq<Task>, m: nat, env: Env, e: Edit)
    requires m < |items| && AllPrRefs(items)
  {
    && CommitOf(items[m], env).Some? && !AskedLater(items, m, env)
    && e == PickEdit(items[m].name, CommitOf(items[m], env).value, "rc" + FromNat(NextRc(v, w.tags)), env)
  }

  lemma PickOf(w: World, v: Version, items: seq<Task>, env: Env, e: Edit) returns (m: nat)
    requires AllPrRefs(items) && InPicks(w, v, items, env, e)
    ensures m < |items| && PickedFor(w, v, items, m, env, e) && e.ref == items[m].name
  {
    var (shas, rc) := (InOrder(env.chronology, Asked(items, env)), "rc" + FromNat(NextRc(v, w.tags)));
    PickEditsHas(shas, Askers(items, env), rc, env, e);
    hide IsPrRef, PickEdit, PickEdits, Askers, Asked, InOrder, NextRc, CommitOf, AskedLater, PicksRun, BranchName;
    var s :| s in shas && e == PickEdit(Askers(items, env)[s].name, s, rc, env);
    AskerOf(items, env, s);
    var n :| 0 <= n < |items| && Askers(items, env)[s] == items[n]
             && CommitOf(items[n], env) == Some(s) && !AskedLater(items, n, env);
    m := n;
  }

  lemma PicksOf(w: World, v: Version, items: seq<Task>, k: nat, env: Env, e: Edit)
    requires k < |items| && AllPrRefs(items) && NamesDiffer(items) && InPicks(w, v, items, env, e)
    requires IsFor(e, items[k].name)
    ensures Becomes(w, v, items, k, env).Some? && e == EditOf(Becomes(w, v, items, k, env).value)
  {
    var m := PickOf(w, v, items, env, e);
    assert PicksRun(w, BranchName(v), Asked(items, env), env);
    hide IsPrRef, Becomes, Lower, NextRc, CommitOf, AskedLater, Reached, PicksRun, BranchName, PickEdit, InPicks;
    assert m == k;
    ReachedIs(w, v, items, env, k);
    BecomesByPick(w, v, items, k, env);
  }

  lemma BecomesIsMade(w: World, v: Version, items: seq<Task>, k: nat, env: Env)
    requires k < |items| && AllPrRefs(items) && NamesDiffer(items) && Becomes(w, v, items, k, env).Some?
    ensures EditOf(Becomes(w, v, items, k, env).value) in RunEdits(w, v, items, env)
  {
    var e := EditOf(Becomes(w, v, items, k, env).value);
    RunEditsSplit(w, v, items, env, e);
    if LookupStatus(items[k], env).Some? {
      hide IsPrRef, LookupEdit, Becomes, LookupEdits, Lower, LookupStatus, InPicks, RunEdits;
      BecomesByLookup(w, v, items, k, env, e);
      LookupEditsHas(items, env, e);
    } else {
      PickIsMade(w, v, items, k, env);
      hide *;
    }
  }

  lemma PickIsMade(w: World, v: Version, items: seq<Task>, k: nat, env: Env)
    requires k < |items| && AllPrRefs(items) && NamesDiffer(items) && Becomes(w, v, items, k, env).Some?
    requires LookupStatus(items[k], env).None?
    ensures InPicks(w, v, items, env, EditOf(Becomes(w, v, items, k, env).value))
  {
    assert CommitOf(items[k], env).Some? && Reached(w, v, items, env) && !AskedLater(items, k, env);
    var e := EditOf(Becomes(w, v, items, k, env).value);
    BecomesByPick(w, v, items, k, env);
    hide IsPrRef, Becomes, PickEdits, Lower, Asked, Asker, NextRc, CommitOf, AskedLater, Reached, BranchName, PickEdit,
         LookupStatus;
    ReachedIs(w, v, items, env, k);
    var (asked, sha) := (Asked(items, env), CommitOf(items[k], env).value);
    InOrderIs(env.chronology, asked, sha);
    AskerOf(items, env, sha);
    hide Askers, InOrder;
    var m :| 0 <= m < |items| && Askers(items, env)[sha] == items[m]
             && CommitOf(items[m], env) == Some(sha) && !AskedLater(items, m, env);
    SameAsker(items, env, k, m);
    PickEditsHas(InOrder(env.chronology, asked), Askers(items, env), "rc" + FromNat(NextRc(v, w.tags)), env, e);
  }

  lemma SameAsker(items: seq<Task>, env: Env, k: nat, m: nat)
    requires k < |items| && m < |items| && AllPrRefs(items) && CommitOf(items[k], env) == CommitOf(items[m], env)
    requires !AskedLater(items, k, env) && !AskedLater(items, m, env)
    ensures k == m
  {
    hide CommitOf, IsPrRef;
  }

  /** The edits made under a pending backport's name are the one of its fate. */
  lemma EditsOf(w: World, v: Version, items: seq<Task>, k: nat, env: Env)
    requires k < |items| && AllPrRefs(items) && NamesDiffer(items)
    ensures var (edits, becomes) := (RunEdits(w, v, items, env), Becomes(w, v, items, k, env));
            && (forall e :: e in edits && IsFor(e, items[k].name) ==> becomes.Some? && e == EditOf(becomes.value))
            && (becomes.Some? ==> EditOf(becomes.value) in edits)
  {
    hide AllPrRefs, NamesDiffer, RunEdits, Becomes, IsFor, InLookups, InPicks;
    var (edits, becomes) := (RunEdits(w, v, items, env), Becomes(w, v, items, k, env));
    forall e | e in edits && IsFor(e, items[k].name) ensures becomes.Some? && e == EditOf(becomes.value) {
      RunEditsSplit(w, v, items, env, e);
      if InLookups(items, env, e) { LookupsOf(w, v, items, k, env, e); } else { PicksOf(w, v, items, k, env, e); }
    }
    if becomes.Some? { BecomesIsMade(w, v, items, k, env); }
  }

  lemma LookupIsOfPending(items: seq<Task>, env: Env, e: Edit) returns (j: nat)
    requires AllPrRefs(items) && e in LookupEdits(items, env)
    ensures j < |items| && e.ref == items[j].name && e in LookupEdit(items[j], env)
  {
    LookupEditsHas(items, env, e);
    hide IsPrRef, LookupEdits, Resolve;
    var n :| 0 <= n < |items| && e in LookupEdit(items[n], env);
    j := n;
  }

  /** Every edit is made for a pending backport. */
  lemma EditIsOfPending(w: World, v: Version, items: seq<Task>, env: Env, e: Edit) returns (j: nat)
    requires AllPrRefs(items) && e in RunEdits(w, v, items, env)
    ensures j < |items| && e.ref == items[j].name
  {
    RunEditsSplit(w, v, items, env, e);
    if InLookups(items, env, e) {
      hide AllPrRefs, RunEdits, LookupEdits, LookupEdit, InPicks;
      j := LookupIsOfPending(items, env, e);
    } else {
      hide *;
      j := PickOf(w, v, items, env, e);
    }
  }

  // ------------------------------------------------------------------ the issue

  /** The text a run works on: with `--add`, the one that it has been extended to. */
  ghost predicate WorksOn(w: World, issue: nat, add: seq<AddRef>, env: Env, body: Body) {
    && issue in w.issues
    && if add == [] then body == w.issues[issue].body
       else !env.addingFails && AddAll(w.issues[issue].body, add) == Some(body)
  }

  lemma RunsOn(w: World, issue: nat, add: seq<AddRef>, env: Env, body: Body)
    requires WorksOn(w, issue, add, env, body)
    ensures ProcessBackports(w, issue, add, env, false) == RunPicks(WithBody(w, issue, body), issue, body, env, false)
  {
    hide RunPicks, AddAll;
    assert w.issues[issue := w.issues[issue]] == w.issues;
  }

  /** What the run leaves stored, in terms of its edits. */
  lemma AfterRun(w: World, issue: nat, v: Version, add: seq<AddRef>, env: Env, body: Body)
    requires WorksOn(w, issue, add, env, body) && VersionInTitle(w.issues[issue].title) == Some(v)
    requires ShortsAreGood(env)
    ensures AllPrRefs(Pending(Backports(body)))
    ensures var ((w', code), items) := (ProcessBackports(w, issue, add, env, false), Pending(Backports(body)));
            var edits := RunEdits(w, v, items, env);
            && issue in w'.issues && IsEdited(body, w'.issues[issue].body, Stored(edits, env.saveFails))
            && (code == 0 <==>
                  Unchecked(edits) == 0
                  && (Asked(items, env) == {} || PicksRun(w, BranchName(v), Asked(items, env), env)))
  {
    RunsOn(w, issue, add, env, body);
    var w1 := WithBody(w, issue, body);
    ChecklistIsEdited(w1, issue, v, env);
    hide IsEdited, AllPrRefs, Asked, Backports, Pending, VersionInTitle, BranchName, Stored, Unchecked, AllKnown,
         NextRc,
         ProcessBackports, ShortsAreGood, WorksOn, LookupEdits, PickEdits, Askers, InOrder;
    var items := Pending(Backports(body));
    assert RunEdits(w1, v, items, env) == RunEdits(w, v, items, env);
  }

  lemma LastOf(w: World, v: Version, items: seq<Task>, k: nat, env: Env, name: string)
    requires k < |items| && AllPrRefs(items) && NamesDiffer(items) && Lower(name) == Lower(items[k].name)
    ensures var (last, becomes) := (LastEdit(Stored(RunEdits(w, v, items, env), env.saveFails), name),
                                    Becomes(w, v, items, k, env));
            && (last.Some? ==> becomes.Some? && last.value == EditOf(becomes.value))
            && (last.None? && becomes.Some? ==> items[k].name in env.saveFails)
  {
    EditsOf(w, v, items, k, env);
    BecomesName(w, v, items, k, env);
    hide AllPrRefs, NamesDiffer, RunEdits, Becomes, Lower, LastEdit, Stored;
    var edits := RunEdits(w, v, items, env);
    StoredIs(edits, env.saveFails);
    LastEditIs(Stored(edits, env.saveFails), name);
    assert forall e :: e in Stored(edits, env.saveFails) ==> e in edits;
  }

  lemma BecomesName(w: World, v: Version, items: seq<Task>, k: nat, env: Env)
    requires k < |items| && AllPrRefs(items)
    ensures Becomes(w, v, items, k, env).Some? ==> Becomes(w, v, items, k, env).value.name == items[k].name
  {
    hide AllPrRefs, CommitOf, LookupStatus, Reached, AskedLater, NextRc;
  }

  /** A pending backport's line says what becomes of it, or what it said before
      where that is nothing or its own update could not be saved. */
  lemma BackportNoted(w: World, issue: nat, v: Version, add: seq<AddRef>, env: Env, body: Body, k: nat, i: nat)
    requires WorksOn(w, issue, add, env, body) && VersionInTitle(w.issues[issue].title) == Some(v)
    requires ShortsAreGood(env) && NamesDiffer(Pending(Backports(body))) && k < |Pending(Backports(body))|
    requires i < |body| && Named(body[i], Pending(Backports(body))[k].name)
    ensures AllPrRefs(Pending(Backports(body))) && issue in ProcessBackports(w, issue, add, env, false).0.issues
    ensures var items := Pending(Backports(body));
            var after := ProcessBackports(w, issue, add, env, false).0.issues[issue].body;
            && i < |after|
            && match Becomes(w, v, items, k, env)
               case None => after[i] == body[i]
               case Some(t) =>
                 ParseLine(after[i]) == Some(t) || (t.name in env.saveFails && after[i] == body[i])
  {
    AfterRun(w, issue, v, add, env, body);
    var items := Pending(Backports(body));
    EmptyUnnamed(items[k].name);
    var t := ParseLine(body[i]).value;
    BecomesName(w, v, items, k, env);
    hide AllPrRefs, NamesDiffer, RunEdits, Becomes, Lower, LastEdit, Stored, ParseLine, ProcessBackports, WorksOn,
         VersionInTitle, ShortsAreGood, Backports, Pending, Unchecked, PicksRun, Asked;
    LastOf(w, v, items, k, env, t.name);
    var after := ProcessBackports(w, issue, add, env, false).0.issues[issue].body;
    assert i < |after|;
    assert LineEdited(body[i], after[i], Stored(RunEdits(w, v, items, env), env.saveFails));
  }

  /** No other line changes, except that empty lines at the end may go. */
  lemma OtherLinesStay(w: World, issue: nat, v: Version, add: seq<AddRef>, env: Env, body: Body, i: nat)
    requires WorksOn(w, issue, add, env, body) && VersionInTitle(w.issues[issue].title) == Some(v)
    requires ShortsAreGood(env)
    requires i < |body| && forall t :: t in Pending(Backports(body)) ==> !Named(body[i], t.name)
    ensures issue in ProcessBackports(w, issue, add, env, false).0.issues
    ensures var after := ProcessBackports(w, issue, add, env, false).0.issues[issue].body;
            |after| <= |body| && if i < |after| then after[i] == body[i] else body[i] == ""
  {
    AfterRun(w, issue, v, add, env, body);
    var items := Pending(Backports(body));
    var (edits, parsed) := (RunEdits(w, v, items, env), ParseLine(body[i]));
    hide AllPrRefs, RunEdits, Lower, LastEdit, Stored, ParseLine, ProcessBackports, WorksOn, VersionInTitle,
         ShortsAreGood, Backports, Pending, Unchecked, PicksRun, Asked;
    var after := ProcessBackports(w, issue, add, env, false).0.issues[issue].body;
    if i < |after| {
      assert LineEdited(body[i], after[i], Stored(edits, env.saveFails));
      if parsed.Some? { UnnamedUnedited(w, v, items, env, body[i], parsed.value.name); }
    }
  }

  lemma UnnamedUnedited(w: World, v: Version, items: seq<Task>, env: Env, line: string, name: string)
    requires AllPrRefs(items) && forall t :: t in items ==> Lower(t.name) != Lower(name)
    ensures LastEdit(Stored(RunEdits(w, v, items, env), env.saveFails), name) == None
  {
    var edits := RunEdits(w, v, items, env);
    StoredIs(edits, env.saveFails);
    hide AllPrRefs, RunEdits, Lower, LastEdit, Stored;
    LastEditIs(Stored(edits, env.saveFails), name);
    assert forall e :: e in Stored(edits, env.saveFails) ==> e in edits;
    forall e | e in edits ensures !IsFor(e, name) {
      var j := EditIsOfPending(w, v, items, env, e);
      assert items[j] in items;
    }
  }

  lemma {:induction false} UncheckedIs(edits: seq<Edit>)
    ensures Unchecked(edits) == 0 <==> forall e :: e in edits ==> e.checked
  {
    if edits != [] {
      UncheckedIs(edits[..|edits| - 1]);
      assert edits == edits[..|edits| - 1] + [edits[|edits| - 1]];
    }
  }

  /** The exit code is 0 exactly when the picks are reached or no backport gives a
      commit, and every pending backport is checked off or left as it is. */
  lemma ExitIsZeroIff(w: World, issue: nat, v: Version, add: seq<AddRef>, env: Env, body: Body)
    requires WorksOn(w, issue, add, env, body) && VersionInTitle(w.issues[issue].title) == Some(v)
    requires ShortsAreGood(env) && NamesDiffer(Pending(Backports(body)))
    ensures AllPrRefs(Pending(Backports(body)))
    ensures var items := Pending(Backports(body));
            ProcessBackports(w, issue, add, env, false).1 == 0 <==>
              && (Reached(w, v, items, env) || forall k :: 0 <= k < |items| ==> CommitOf(items[k], env) == None)
              && forall k :: 0 <= k < |items| && Becomes(w, v, items, k, env).Some? ==>
                   Becomes(w, v, items, k, env).value.checked
  {
    AfterRun(w, issue, v, add, env, body);
    var items := Pending(Backports(body));
    hide ProcessBackports, WorksOn, VersionInTitle, ShortsAreGood, Backports, Pending, IsEdited, Stored;
    AllChecked(w, v, items, env);
    StoppedIff(w, v, items, env);
  }

  lemma AllChecked(w: World, v: Version, items: seq<Task>, env: Env)
    requires AllPrRefs(items) && NamesDiffer(items)
    ensures Unchecked(RunEdits(w, v, items, env)) == 0 <==>
              forall k :: 0 <= k < |items| && Becomes(w, v, items, k, env).Some? ==>
                Becomes(w, v, items, k, env).value.checked
  {
    var edits := RunEdits(w, v, items, env);
    UncheckedIs(edits);
    hide AllPrRefs, NamesDiffer, RunEdits, Becomes, Unchecked, Lower;
    forall k | 0 <= k < |items| && Becomes(w, v, items, k, env).Some?
      ensures EditOf(Becomes(w, v, items, k, env).value) in edits
    {
      EditsOf(w, v, items, k, env);
    }
    forall e | e in edits
      ensures exists k :: 0 <= k < |items| && Becomes(w, v, items, k, env).Some?
                          && e == EditOf(Becomes(w, v, items, k, env).value)
    {
      var j := EditIsOfPending(w, v, items, env, e);
      EditsOf(w, v, items, j, env);
    }
  }

  lemma StoppedIff(w: World, v: Version, items: seq<Task>, env: Env)
    requires AllPrRefs(items)
    ensures Asked(items, env) == {} || PicksRun(w, BranchName(v), Asked(items, env), env) <==>
              Reached(w, v, items, env) || forall k :: 0 <= k < |items| ==> CommitOf(items[k], env) == None
  {
    AskedIs(items, env);
    hide IsPrRef, CommitOf, Asked, PicksRun, Reached, BranchName;
    if k :| 0 <= k < |items| && CommitOf(items[k], env).Some? {
      ReachedIs(w, v, items, env, k);
    }
  }
}
