/** Which commits process-backports leaves on the release branch. */
module ReleasePicks {
  import opened Text
  import opened Decimal
  import opened Selection
  import opened Checklist
  import opened IssueBody
  import opened GitGraph
  import opened ReleaseSteps
  import opened ReleaseBackportSafety

  // ------------------------------------------------------------- one loop of picks

  function Outcome(env: Env, sha: string): PickOutcome {
    if sha in env.picks then env.picks[sha] else Conflict
  }

  predicate Pushes(o: PickOutcome) {
    o.Pushed? || o.FailedAfterPush?
  }

  ghost predicate SomePushes(shas: seq<string>, env: Env) {
    exists j :: 0 <= j < |shas| && Pushes(Outcome(env, shas[j]))
  }

  /** The pick is committed, and it or a later one is pushed. */
  ghost predicate Lands(shas: seq<string>, env: Env, sha: string) {
    exists i, j :: 0 <= i <= j < |shas| && shas[i]
        == sha && !Outcome(env, sha).Conflict? && Pushes(Outcome(env, shas[j]))
  }

  /** How many picks count as failed: all but the ones pushed without an error. */
  function FailedPicks(shas: seq<string>, env: Env): nat {
    if shas == [] then 0 else (if Outcome(env, shas[0]).Pushed? then 0 else 1) + FailedPicks(shas[1..], env)
  }

  lemma NotedFailed(notes: Notes, ref: string, checked: bool, md: Metadata, env: Env)
    ensures Noted(notes, ref, checked, md, env).failed == notes.failed
  {
    hide Update;
  }

  lemma CommitPicks(c: Commit, parent: Commit, picked: string, sha: string)
    requires c.parents == [parent] && c.picked == Some(picked)
    ensures HasPick(c, sha) <==> picked == sha || HasPick(parent, sha)
  {
    ParentIsAncestor(c, 0);
    if HasPick(parent, sha) { PicksAccumulate(parent, c, sha); }
    assert IsAncestor(c, c);
    if HasPick(c, sha) && picked != sha {
      var a :| IsAncestor(a, c) && a.picked == Some(sha);
      var i :| 0 <= i < |c.parents| && IsAncestor(a, c.parents[i]);
      assert HasPick(parent, sha);
    }
  }

  lemma LandsStep(shas: seq<string>, env: Env, sha: string)
    requires shas != []
    ensures SomePushes(shas, env) <==> Pushes(Outcome(env, shas[0])) || SomePushes(shas[1..], env)
    ensures Lands(shas, env, sha) <==>
              Lands(shas[1..], env, sha)
              || (shas[0] == sha && !Outcome(env, sha).Conflict? && SomePushes(shas, env))
  {
    var rest := shas[1..];
    hide Outcome, Pushes;
    if SomePushes(rest, env) {
      var j :| 0 <= j < |rest| && Pushes(Outcome(env, rest[j]));
      assert shas[j + 1] == rest[j];
    }
    if j :| 0 <= j < |shas| && Pushes(Outcome(env, shas[j])) {
      assert j > 0 ==> rest[j - 1] == shas[j];
      assert shas[0] == sha && !Outcome(env, sha).Conflict? ==> Lands(shas, env, sha);
    }
    if Lands(rest, env, sha) {
      var i, j :| 0 <= i <= j < |rest| && rest[i]
          == sha && !Outcome(env, sha).Conflict? && Pushes(Outcome(env, rest[j]));
      assert shas[i + 1] == sha && shas[j + 1] == rest[j];
    }
    if i, j :| 0 <= i <= j < |shas| && shas[i] == sha && !Outcome(env, sha).Conflict? && Pushes(Outcome(env, shas[j])) {
      if i > 0 { assert rest[i - 1] == sha && rest[j - 1] == shas[j]; }
    }
  }

  lemma PickOneIs(p: Picking, sha: string, ref: string, rc: string, env: Env)
    ensures var q := PickOne(p, sha, ref, rc, env, false);
            var o := Outcome(env, sha);
            && q.notes.failed == p.notes.failed + (if o.Pushed? then 0 else 1)
            && (o.Conflict? ==> q.local == p.local)
            && (!o.Conflict? ==> q.local.parents == [p.local] && q.local.picked == Some(sha))
            && q.remote == if Pushes(o) then q.local else p.remote
  {
    hide Update;
  }

  /** The branch gains exactly the commits that land, whatever fails on the way. */
  lemma {:induction false} PicksLand(p: Picking, shas: seq<string>, items: map<string, Task>, rc: string, env: Env,
                                     sha: string)
    requires forall s :: s in shas ==> s in items
    ensures var q := PickAll(p, shas, items, rc, env, false);
            && q.notes.failed == p.notes.failed + FailedPicks(shas, env)
            && (HasPick(q.remote, sha) <==>
                  if SomePushes(shas, env) then HasPick(p.local, sha) || Lands(shas, env, sha)
                      else HasPick(p.remote, sha))
    decreases |shas|
  {
    if shas != [] {
      assert shas[0] in items;
      PickOneIs(p, shas[0], items[shas[0]].name, rc, env);
      var q := PickOne(p, shas[0], items[shas[0]].name, rc, env, false);
      hide PickOne, Outcome, HasPick, Lands;
      PicksLand(q, shas[1..], items, rc, env, sha);
      LandsStep(shas, env, sha);
      if !Outcome(env, shas[0]).Conflict? { CommitPicks(q.local, p.local, shas[0], sha); }
      NothingLands(shas[1..], env, sha);
      hide SomePushes, Pushes;
    }
  }

  lemma NothingLands(shas: seq<string>, env: Env, sha: string)
    ensures Lands(shas, env, sha) ==> SomePushes(shas, env)
  {
    hide Outcome, Pushes;
  }

  /** A pick that counts as failed reaches the branch exactly when its error came
      after its push, or before it with a later pick pushed. `i` is where the
      commit first stands. */
  lemma FailedPickIsPushed(p: Picking, shas: seq<string>, items: map<string, Task>, rc: string, env: Env, i: nat)
    requires p.local == p.remote && forall s :: s in shas ==> s in items
    requires i < |shas| && !Outcome(env, shas[i]).Pushed? && !HasPick(p.remote, shas[i])
    requires forall j :: 0 <= j < i ==> shas[j] != shas[i]
    ensures var o := Outcome(env, shas[i]);
            HasPick(PickAll(p, shas, items, rc, env, false).remote, shas[i]) <==>
              o.FailedAfterPush? || (o.FailedBeforePush? && exists j :: i < j < |shas| && Pushes(Outcome(env, shas[j])))
    ensures PickAll(p, shas, items, rc, env, false).notes.failed > p.notes.failed
  {
    PicksLand(p, shas, items, rc, env, shas[i]);
    FailedIsCounted(shas, env, i);
    NothingLands(shas, env, shas[i]);
    hide PickAll, HasPick, Outcome, SomePushes;
    var o := Outcome(env, shas[i]);
    if o.FailedAfterPush? { assert Lands(shas, env, shas[i]); }
    if j :| i < j < |shas| && Pushes(Outcome(env, shas[j])) {
      assert o.FailedBeforePush? ==> Lands(shas, env, shas[i]);
    }
    if Lands(shas, env, shas[i]) {
      var k, j :| 0 <= k <= j < |shas| && shas[k] == shas[i] && !o.Conflict? && Pushes(Outcome(env, shas[j]));
      assert k >= i && (shas[j] == shas[i] ==> Outcome(env, shas[j]) == o);
    }
  }

  lemma {:induction false} FailedIsCounted(shas: seq<string>, env: Env, i: nat)
    requires i < |shas| && !Outcome(env, shas[i]).Pushed?
    ensures FailedPicks(shas, env) > 0
  {
    if i > 0 { FailedIsCounted(shas[1..], env, i - 1); }
  }

  // ----------------------------------------------------------- what gets picked

  /** The commits that some backports ask for. */
  function Asked(items: seq<Task>, env: Env): set<string> {
    set t | t in items && IsPrRef(t.name) && Resolve(t, env).ToPick? :: Resolve(t, env).sha
  }

  lemma {:induction false} TriageAsks(acc: Triage, items: seq<Task>, env: Env)
    requires AllPrRefs(items)
    ensures TriageAll(acc, items, env, false).items.Keys == acc.items.Keys + Asked(items, env)
    decreases |items|
  {
    if items == [] {
      assert acc.items.Keys + Asked(items, env) == acc.items.Keys;
    } else {
      assert AllPrRefs(items[1..]);
      var next := TriageOne(acc, items[0], env, false);
      TriageOneAsks(acc, items[0], env);
      AskedSplit(items, env);
      hide TriageOne, Resolve, IsPrRef, Asked;
      TriageAsks(next, items[1..], env);
    }
  }

  lemma TriageOneAsks(acc: Triage, t: Task, env: Env)
    requires IsPrRef(t.name)
    ensures TriageOne(acc, t, env, false).items.Keys == acc.items.Keys + Asked([t], env)
  {
    hide Resolve, IsPrRef, Noted;
    assert t in [t];
  }

  lemma AskedSplit(items: seq<Task>, env: Env)
    requires items != []
    ensures Asked(items, env) == Asked([items[0]], env) + Asked(items[1..], env)
  {
    hide Resolve, IsPrRef;
    assert items == [items[0]] + items[1..];
  }

  /** The order in which the pending backports' commits are picked. */
  function PickOrder(body: Body, env: Env): seq<string> {
    InOrder(env.chronology, Asked(Pending(Backports(body)), env))
  }

  /** What has to hold for the loop of picks to run at all. */
  ghost predicate GetsToPick(body: Body, env: Env) {
    var asked := Asked(Pending(Backports(body)), env);
    asked != {} && !env.dirty && AllKnown(asked, env.chronology)
  }

  lemma {:induction false} InOrderIs(chronology: seq<string>, shas: set<string>, s: string)
    ensures s in InOrder(chronology, shas) <==> s in chronology && s in shas
  {
    if chronology != [] {
      InOrderIs(chronology[1..], shas, s);
      assert chronology == [chronology[0]] + chronology[1..];
    }
  }

  lemma {:induction false} PendingIs(items: seq<Task>, t: Task)
    ensures t in Pending(items) <==> t in items && IsPending(t)
  {
    hide IsPending;
    if items != [] {
      PendingIs(items[1..], t);
      assert items == [items[0]] + items[1..];
    }
  }

  /** The commits are picked as they stand in the chronology. */
  lemma {:induction false} InOrderAre(chronology: seq<string>, shas: set<string>) returns (at: seq<nat>)
    ensures AreAt(chronology, InOrder(chronology, shas), at)
    ensures forall k: nat :: k in at <==> k < |chronology| && chronology[k] in shas
  {
    if chronology == [] {
      at := [];
    } else {
      var (first, rest) := (chronology[0] in shas, chronology[1..]);
      var below := InOrderAre(rest, shas);
      AtBelow(chronology, InOrder(rest, shas), below);
      at := if first then [0] + Shifted(below) else Shifted(below);
      hide AreAt;
      forall k: nat ensures k in at <==> k < |chronology| && chronology[k] in shas { PlacesAre(below, first, k); }
    }
  }

  /** Unchecked, and without a status that starts with `error-`. */
  predicate WaitsForPick(t: Task) {
    !t.checked && match Get(t.metadata, "status") case None => true case Some(status) => !("error-" <= status)
  }

  lemma PendingWaits(t: Task)
    ensures IsPending(t) <==> WaitsForPick(t)
  {
    assert "pending"[0] == 'p' && "error-"[0] == 'e';
    hide Get;
  }

  /** The backports are looked up as they are listed. */
  lemma {:induction false} PendingAre(items: seq<Task>) returns (at: seq<nat>)
    ensures AreAt(items, Pending(items), at)
    ensures forall k: nat :: k in at <==> k < |items| && WaitsForPick(items[k])
  {
    hide WaitsForPick;
    forall t ensures IsPending(t) <==> WaitsForPick(t) { PendingWaits(t); }
    hide IsPending;
    if items == [] {
      at := [];
    } else {
      var (first, rest) := (IsPending(items[0]), items[1..]);
      var below := PendingAre(rest);
      AtBelow(items, Pending(rest), below);
      at := if first then [0] + Shifted(below) else Shifted(below);
      hide AreAt;
      forall k: nat ensures k in at <==> k < |items| && WaitsForPick(items[k]) { PlacesAre(below, first, k); }
    }
  }

  /** A commit is picked exactly when a listed backport asks for it that is
      unchecked, not in error, and whose pull request gives it. */
  lemma PickOrderIs(body: Body, env: Env, sha: string)
    ensures sha in PickOrder(body, env) <==>
              sha in env.chronology
                  && exists t :: t in Backports(body) && !t.checked && !StartsWith(Status(t), "error-")
                                                   && IsPrRef(t.name) && Resolve(t, env) == ToPick(sha)
  {
    var items := Backports(body);
    InOrderIs(env.chronology, Asked(Pending(items), env), sha);
    hide Resolve, IsPrRef, Backports, InOrder, Status;
    forall t ensures t in Pending(items) <==> t in items && IsPending(t) { PendingIs(items, t); }
    hide Pending;
    if t :| t in items && IsPending(t) && IsPrRef(t.name) && Resolve(t, env) == ToPick(sha) {
      assert t in Pending(items);
      assert Resolve(t, env).sha in Asked(Pending(items), env);
    }
  }

  /** The triage that precedes the picks. */
  ghost function Start(w: World, issue: nat, env: Env): Triage
    requires issue in w.issues
  {
    Triaged(w, issue, w.issues[issue].body, env, false)
  }

  lemma StartAsks(w: World, issue: nat, env: Env)
    requires issue in w.issues
    ensures Start(w, issue, env).items.Keys == Asked(Pending(Backports(w.issues[issue].body)), env)
    ensures forall s :: s in PickOrder(w.issues[issue].body, env) ==> s in Start(w, issue, env).items
  {
    var body := w.issues[issue].body;
    PendingArePrRefs(body);
    TriageAsks(Triage(map[], Notes(body, w.issues[issue].body, 0)), Pending(Backports(body)), env);
    hide TriageAll, Backports, Pending, Asked;
  }

  lemma BranchesAfter(w: World, issue: nat, v: Version, env: Env)
    requires issue in w.issues && VersionInTitle(w.issues[issue].title) == Some(v) && BranchName(v) in w.branches
    requires forall s :: s in PickOrder(w.issues[issue].body, env) ==> s in Start(w, issue, env).items
    ensures var (body, b) := (w.issues[issue].body, BranchName(v));
            var (head, start) := (w.branches[b], Start(w, issue, env));
            ProcessBackports(w, issue, [], env, false).0.branches ==
              if GetsToPick(body, env) then
                w.branches[b := PickAll(Picking(head, head, start.notes), PickOrder(body, env), start.items,
                                        "rc" + FromNat(NextRc(v, w.tags)), env, false).remote]
              else w.branches
  {
    StartAsks(w, issue, env);
    JustPicks(w, issue, env);
    NothingAsked(env);
    var body := w.issues[issue].body;
    hide VersionInTitle, BranchName, NextRc, AllKnown, Asked, InOrder, PickAll, Pending, FromNat, ProcessBackports,
         RunPicks, Triaged, Backports;
    RunPicksBranches(w, issue, v, body, env);
    assert Start(w, issue, env).items == map[] <==> Asked(Pending(Backports(body)), env) == {};
  }

  lemma RunPicksBranches(w: World, issue: nat, v: Version, body: Body, env: Env)
    requires issue in w.issues && VersionInTitle(w.issues[issue].title) == Some(v) && BranchName(v) in w.branches
    ensures var (start, b) := (Triaged(w, issue, body, env, false), BranchName(v));
            && (forall s :: s in InOrder(env.chronology, start.items.Keys) ==> s in start.items)
            && RunPicks(w, issue, body, env, false).0.branches ==
                 if Pending(Backports(body)) == [] || start.items == map[] || env.dirty
                    || !AllKnown(start.items.Keys, env.chronology)
                 then w.branches
                 else
                   var shas := InOrder(env.chronology, start.items.Keys);
                   w.branches[b := PickAll(Picking(w.branches[b], w.branches[b], start.notes), shas, start.items,
                                           "rc" + FromNat(NextRc(v, w.tags)), env, false).remote]
  {
    hide TriageAll, VersionInTitle, BranchName, NextRc, AllKnown, InOrder, PickAll, Pending, FromNat, Backports,
         AllPrRefs;
  }

  lemma JustPicks(w: World, issue: nat, env: Env)
    requires issue in w.issues
    ensures ProcessBackports(w, issue, [], env, false) == RunPicks(w, issue, w.issues[issue].body, env, false)
  {
    hide RunPicks;
  }

  /** After process-backports a commit's pick is on the release branch exactly when
      it was before, or the picks were reached and it is one of those that land. */
  lemma BackportIsPickedIff(w: World, issue: nat, v: Version, env: Env, sha: string)
    requires issue in w.issues && VersionInTitle(w.issues[issue].title) == Some(v) && BranchName(v) in w.branches
    ensures var (body, b) := (w.issues[issue].body, BranchName(v));
            var w' := ProcessBackports(w, issue, [], env, false).0;
            && b in w'.branches && (forall n :: n != b ==>
                 (n in w'.branches <==> n in w.branches) && (n in w.branches ==> w'.branches[n] == w.branches[n]))
            && (HasPick(w'.branches[b], sha) <==>
                  HasPick(w.branches[b], sha) || (GetsToPick(body, env) && Lands(PickOrder(body, env), env, sha)))
  {
    var (body, head, start) := (w.issues[issue].body, w.branches[BranchName(v)], Start(w, issue, env));
    StartAsks(w, issue, env);
    hide VersionInTitle, BranchName, NextRc, HasPick, ProcessBackports, GetsToPick, Start, PickOrder;
    BranchesAfter(w, issue, v, env);
    var order := PickOrder(body, env);
    PicksLand(Picking(head, head, start.notes), order, start.items, "rc" + FromNat(NextRc(v, w.tags)), env, sha);
    NothingLands(order, env, sha);
    hide PickAll, Lands, SomePushes;
  }

  lemma NothingAsked(env: Env)
    ensures Asked([], env) == {}
  {
  }

  /** An ignored backport whose pull request is merged is settled for tagging a
      candidate, and is picked onto the branch all the same. */
  lemma IgnoredIsPicked(w: World, issue: nat, v: Version, env: Env, t: Task)
    requires issue in w.issues && VersionInTitle(w.issues[issue].title) == Some(v) && BranchName(v) in w.branches
    requires t in Backports(w.issues[issue].body) && IsPrRef(t.name) && !t.checked && Status(t) == "ignore"
    requires PrNumber(t.name) in env.prs && env.prs[PrNumber(t.name)].Merged? && env.prs[PrNumber(t.name)].oid != ""
    requires GetsToPick(w.issues[issue].body, env) && Pushes(Outcome(env, env.prs[PrNumber(t.name)].oid))
    ensures Settled(t)
    ensures BranchName(v) in ProcessBackports(w, issue, [], env, false).0.branches
    ensures HasPick(ProcessBackports(w, issue, [], env, false).0.branches[BranchName(v)], env.prs[PrNumber(t.name)].oid)
  {
    var (body, sha) := (w.issues[issue].body, env.prs[PrNumber(t.name)].oid);
    assert Resolve(t, env) == ToPick(sha);
    assert !StartsWith(Status(t), "error-") by { assert "ignore"[0] == 'i'; }
    hide Status, PrNumber, IsPrRef, Resolve, BranchName, VersionInTitle, Outcome;
    BackportIsPickedIff(w, issue, v, env, sha);
    hide HasPick, ProcessBackports;
    PendingIs(Backports(body), t);
    assert sha in Asked(Pending(Backports(body)), env);
    PickOrderIs(body, env, sha);
    hide PickOrder, GetsToPick;
    var i :| 0 <= i < |PickOrder(body, env)| && PickOrder(body, env)[i] == sha;
    assert Lands(PickOrder(body, env), env, sha);
  }
}
