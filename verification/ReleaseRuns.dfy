/** Tagging, promoting, and whole runs of the release commands. */
module ReleaseRuns {
  import opened Text
  import opened Checklist
  import opened IssueBody
  import opened GitGraph
  import opened ReleaseSteps
  import opened ReleaseNames
  import opened ReleaseIssueSafety
  import opened ReleaseSafety
  import opened ReleaseBackportSafety

  // ------------------------------------------------------------------ tagging

  /** The next candidate's tag is new. */
  lemma NextTagIsNew(w: World, v: Version)
    ensures RcTag(v, NextRc(v, w.tags)) !in w.tags
  {
    var tag := RcTag(v, NextRc(v, w.tags));
    RcTagIsRc(v, NextRc(v, w.tags));
    hide IsRcTag, RcNumber, RcTag, NextRc;
    if tag in w.tags { NextRcIsAbove(v, w.tags, tag); }
  }

  /** Every smaller number is a candidate, on an ancestor of the branch head. */
  lemma EarlierCandidates(w: World, v: Version, i: nat)
    requires CandidatesOk(w) && ValidVersion(v) && i < NextRc(v, w.tags)
    ensures RcTag(v, i) in w.tags && BranchName(v) in w.branches
    ensures IsAncestor(w.tags[RcTag(v, i)], w.branches[BranchName(v)])
  {
    hide IsRcTag, RcNumber, RcTag, IsAncestor, ValidVersion, BranchName;
    var tag := LatestRcTag(v, w.tags).value;
    assert CandidateOk(w, v, tag);
    AncestorTransitive(w.tags[RcTag(v, i)], w.tags[tag], w.branches[BranchName(v)]);
  }

  function Tagged(w: World, tag: string, c: Commit): World {
    w.(tags := w.tags[tag := c])
  }

  lemma CandidateKept(w: World, v: Version, tag: string, added: string, c: Commit)
    requires added !in w.tags && tag in w.tags && IsRcTag(v, tag) && CandidateOk(w, v, tag)
    ensures CandidateOk(Tagged(w, added, c), v, tag)
  {
    hide IsRcTag, RcNumber, RcTag, IsAncestor, BranchName;
  }

  lemma NewCandidateOk(w: World, v: Version)
    requires CandidatesOk(w) && ValidVersion(v) && BranchName(v) in w.branches
    ensures IsRcTag(v, RcTag(v, NextRc(v, w.tags)))
    ensures CandidateOk(Tagged(w, RcTag(v, NextRc(v, w.tags)), w.branches[BranchName(v)]), v,
            RcTag(v, NextRc(v, w.tags)))
  {
    var n := NextRc(v, w.tags);
    var head := w.branches[BranchName(v)];
    var w' := Tagged(w, RcTag(v, n), head);
    RcTagIsRc(v, n);
    GrowsToSelf(head);
    hide IsRcTag, RcNumber, RcTag, IsAncestor, ValidVersion, BranchName, NextRc, CandidatesOk;
    forall i: nat | i <= n ensures RcTag(v, i) in w'.tags && IsAncestor(w'.tags[RcTag(v, i)], head) {
      if i < n { EarlierCandidates(w, v, i); }
    }
  }

  /** Tagging the branch head as the next candidate keeps the invariant. */
  lemma CandidateTagged(w: World, v: Version, merges: Merges)
    requires Inv(w, merges) && ValidVersion(v) && BranchName(v) in w.branches
    ensures var w' := Tagged(w, RcTag(v, NextRc(v, w.tags)), w.branches[BranchName(v)]);
            Inv(w', merges) && Grows(w, w')
  {
    var n := NextRc(v, w.tags);
    var tag := RcTag(v, n);
    var w' := Tagged(w, tag, w.branches[BranchName(v)]);
    NextTagIsNew(w, v);
    NewCandidateOk(w, v);
    hide IsRcTag, RcNumber, RcTag, IsAncestor, ValidVersion, BranchName, NextRc, BodyOk, HeadFor, CandidateOk, FinalOk;
    forall u, t | ValidVersion(u) && t in w'.tags && IsRcTag(u, t) ensures CandidateOk(w', u, t) {
      if t == tag {
        RcTagUnique(u, v, n);
      } else {
        assert CandidateOk(w, u, t);
        CandidateKept(w, u, t, tag, w.branches[BranchName(v)]);
      }
    }
    forall u | ValidVersion(u) && VersionText(u) in w'.tags ensures FinalOk(w', u) {
      RcTagIsRc(v, n);
      FinalIsNotRc(v, u);
      assert FinalOk(w, u);
      FinalKept(w, u, tag, w.branches[BranchName(v)]);
    }
    BranchesGrowReflexive(w.branches);
  }

  lemma FinalKept(w: World, u: Version, added: string, c: Commit)
    requires added !in w.tags && VersionText(u) in w.tags && FinalOk(w, u)
    ensures FinalOk(Tagged(w, added, c), u)
  {
    hide RcTag, IsAncestor, BranchName, IsFirstRelease, VersionText;
    var final := w.tags[VersionText(u)];
    if IsFirstRelease(u) {
      var n :| RcTag(u, n) in w.tags && w.tags[RcTag(u, n)] == final;
      assert RcTag(u, n) in Tagged(w, added, c).tags;
    }
  }

  /** A final tag on the branch head, which for a first release is a candidate. */
  lemma FinalTagged(w: World, v: Version, merges: Merges)
    requires Inv(w, merges) && ValidVersion(v) && BranchName(v) in w.branches && VersionText(v) !in w.tags
    requires IsFirstRelease(v) ==>
               LatestRcTag(v, w.tags).Some? && w.tags[LatestRcTag(v, w.tags).value] == w.branches[BranchName(v)]
    ensures var w' := Tagged(w, VersionText(v), w.branches[BranchName(v)]);
            Inv(w', merges) && Grows(w, w')
  {
    var head := w.branches[BranchName(v)];
    var w' := Tagged(w, VersionText(v), head);
    GrowsToSelf(head);
    BranchesGrowReflexive(w.branches);
    hide IsRcTag, RcNumber, RcTag, IsAncestor, ValidVersion, BranchName, BodyOk, HeadFor, VersionText, IsFirstRelease;
    forall u, t | ValidVersion(u) && t in w'.tags && IsRcTag(u, t) ensures CandidateOk(w', u, t) {
      FinalIsNotRc(u, v);
      assert CandidateOk(w, u, t);
      CandidateKept(w, u, t, VersionText(v), head);
    }
    forall u | ValidVersion(u) && VersionText(u) in w'.tags ensures FinalOk(w', u) {
      if u == v {
        if IsFirstRelease(v) {
          var tag := LatestRcTag(v, w.tags).value;
          assert CandidateOk(w, v, tag);
          assert RcTag(v, RcNumber(v, tag)) in w'.tags;
        }
      } else {
        if VersionText(u) == VersionText(v) { VersionTextInjective(u, v); }
        assert FinalOk(w, u);
        FinalKept(w, u, VersionText(v), head);
      }
    }
  }

  // ----------------------------------------------------------------- create-rc

  lemma TagRcOk(w: World, issue: nat, v: Version, saveFails: bool, merges: Merges)
    requires Inv(w, merges) && issue in w.issues && ValidVersion(v)
    ensures var w' := TagRc(w, issue, v, NextRc(v, w.tags), saveFails).0; Inv(w', merges) && Grows(w, w')
  {
    var n := NextRc(v, w.tags);
    GrowsReflexive(w);
    if BranchName(v) in w.branches {
      var head := w.branches[BranchName(v)];
      var md := [Pair("status", "done"), Pair("tag", RcTag(v, n)), Pair("commit", Short(head.sha))];
      CandidateTagged(w, v, merges);
      RcNameIsGood(n);
      assert GoodName(RcTaskName(n), md);
      hide Inv, Grows, RcTag, RcTaskName, NextRc, BranchName, ValidVersion, Recorded, IsPrRef, GoodName, KindOf;
      RecordedOk(Tagged(w, RcTag(v, n), head), issue, RcTaskName(n), true, md, saveFails, merges);
      GrowsTransitive(w, Tagged(w, RcTag(v, n), head), TagRc(w, issue, v, n, saveFails).0);
    }
  }

  /** Both ways of tagging: the task is listed already, or is added first. */
  lemma GateTagOk(w: World, issue: nat, v: Version, saveFails: bool, merges: Merges)
    requires Inv(w, merges) && issue in w.issues && ValidVersion(v)
    ensures var n := NextRc(v, w.tags);
            && Inv(TagRc(w, issue, v, n, saveFails).0, merges) && Grows(w, TagRc(w, issue, v, n, saveFails).0)
            && match AddRcTask(w.issues[issue].body, n)
               case None => true
               case Some(added) => var w' := TagRc(WithBody(w, issue, added), issue, v, n, saveFails).0;
                   Inv(w', merges) && Grows(w, w')
  {
    var n := NextRc(v, w.tags);
    var body := w.issues[issue].body;
    AddRcTaskOk(body, n, HeadFor(w.branches, w.issues[issue].title), merges);
    hide Grows, TagRc, NextRc, ValidVersion, AddRcTask, HeadFor, BodyOk, Inv;
    TagRcOk(w, issue, v, saveFails, merges);
    var added := AddRcTask(body, n);
    if added.Some? {
      assert BodyOk(body, HeadFor(w.branches, w.issues[issue].title), merges) by { IssueBodyOk(w, issue, merges); }
      BodyWritten(w, issue, added.value, merges);
      var w1 := WithBody(w, issue, added.value);
      TagRcOk(w1, issue, v, saveFails, merges);
      GrowsTransitive(w, w1, TagRc(w1, issue, v, n, saveFails).0);
    }
  }

  lemma IssueBodyOk(w: World, issue: nat, merges: Merges)
    requires Inv(w, merges) && issue in w.issues
    ensures BodyOk(w.issues[issue].body, HeadFor(w.branches, w.issues[issue].title), merges)
  {
    hide BodyOk, HeadFor, CandidatesOk, FinalsOk;
  }

  lemma GateAndTagOk(w: World, issue: nat, env: Env, merges: Merges)
    requires Inv(w, merges) && issue in w.issues
    ensures Inv(GateAndTag(w, issue, env).0, merges) && Grows(w, GateAndTag(w, issue, env).0)
  {
    GrowsReflexive(w);
    TitleVersionIsValid(w.issues[issue].title);
    hide Grows, TagRc, NextRc, VersionInTitle, ValidVersion, AddRcTask, LastOfKind, AllSettled, Backports, Inv;
    var version := VersionInTitle(w.issues[issue].title);
    if version.Some? { GateTagOk(w, issue, version.value, env.closingFails, merges); }
  }

  lemma CreateRcOk(w: World, issue: nat, env: Env, merges: Merges)
    requires Inv(w, merges) && EnvConsistent(env, merges)
    ensures Inv(CreateRc(w, issue, env).0, merges) && Grows(w, CreateRc(w, issue, env).0)
  {
    ProcessBackportsOk(w, issue, [], env, false, merges);
    hide Inv, Grows, ProcessBackports, GateAndTag, EnvConsistent;
    var processed := ProcessBackports(w, issue, [], env, false).0;
    if issue in processed.issues {
      GateAndTagOk(processed, issue, env, merges);
      GrowsTransitive(w, processed, GateAndTag(processed, issue, env).0);
    }
  }

  /** A commit that every settled, non-ignored backport of the issue is part of. */
  ghost predicate HoldsBackports(c: Commit, body: Body, merges: Merges) {
    forall t :: t in Backports(body) && t.checked && Status(t) == "done" ==>
      IsPrRef(t.name) && PrNumber(t.name) in merges && HasPick(c, merges[PrNumber(t.name)])
  }

  lemma HeadHoldsBackports(w: World, issue: nat, v: Version, merges: Merges)
    requires Inv(w, merges) && issue in w.issues && VersionInTitle(w.issues[issue].title) == Some(v)
    requires BranchName(v) in w.branches
    ensures HoldsBackports(w.branches[BranchName(v)], w.issues[issue].body, merges)
  {
    var body := w.issues[issue].body;
    var head := w.branches[BranchName(v)];
    assert BodyOk(body, Some(head), merges);
    hide VersionInTitle, BranchName, Inv, HasPick, LineOk;
    forall t | t in Backports(body) && t.checked && Status(t) == "done"
      ensures IsPrRef(t.name) && PrNumber(t.name) in merges && HasPick(head, merges[PrNumber(t.name)])
    {
      var s := Section(body).value;
      BackportListed(body[s.0..s.1], t);
      DoneIsPicked(body, t, head, merges);
    }
  }

  lemma DoneIsPicked(body: seq<string>, t: Task, head: Commit, merges: Merges)
    requires BodyOk(body, Some(head), merges) && t.checked && Status(t) == "done"
    requires exists l :: l in body && Backport(l) == Some(t)
    ensures IsPrRef(t.name) && PrNumber(t.name) in merges && HasPick(head, merges[PrNumber(t.name)])
  {
    hide ParseLine, HasPick, IsPrRef, PrNumber, Status;
    var l :| l in body && Backport(l) == Some(t);
    assert LineOk(l, Some(head), merges);
  }

  /** When create-rc tags, the tag is the next number, sits on the branch head,
      and holds the cherry-pick of every listed backport that is not ignored. */
  lemma NewCandidateHoldsBackports(w: World, issue: nat, env: Env, merges: Merges, tag: string)
    requires Inv(w, merges) && EnvConsistent(env, merges)
    requires tag !in w.tags && tag in CreateRc(w, issue, env).0.tags
    ensures var before := ProcessBackports(w, issue, [], env, false).0;
            && issue in before.issues && VersionInTitle(before.issues[issue].title).Some?
            && var v := VersionInTitle(before.issues[issue].title).value;
            && var c := CreateRc(w, issue, env).0.tags[tag];
            && tag == RcTag(v, NextRc(v, before.tags))
            && BranchName(v) in before.branches && c == before.branches[BranchName(v)]
            && forall t :: t in Backports(before.issues[issue].body) ==>
                 (!t.checked && Status(t) == "ignore")
                 || (t.checked && IsPrRef(t.name) && PrNumber(t.name) in merges && HasPick(c, merges[PrNumber(t.name)]))
  {
    var before := ProcessBackports(w, issue, [], env, false).0;
    ProcessBackportsOk(w, issue, [], env, false, merges);
    assert before.tags == w.tags && issue in before.issues by { hide ProcessBackports, Inv, Grows, GateAndTag; }
    var (after, _) := GateAndTag(before, issue, env);
    assert CreateRc(w, issue, env).0 == after by { hide ProcessBackports, GateAndTag, Inv, Grows; }
    GatePassed(before, issue, env, tag);
    var v := VersionInTitle(before.issues[issue].title).value;
    hide Inv, Grows, GateAndTag, ProcessBackports, CreateRc, VersionInTitle, BranchName, RcTag, NextRc, EnvConsistent,
         HasPick, PrNumber, IsPrRef;
    HeadHoldsBackports(before, issue, v, merges);
    var items := Backports(before.issues[issue].body);
    assert forall t :: t in items ==> Settled(t);
  }

  /** What the gate's checks give when a tag appears. */
  lemma GatePassed(w: World, issue: nat, env: Env, tag: string)
    requires issue in w.issues && tag !in w.tags && tag in GateAndTag(w, issue, env).0.tags
    ensures VersionInTitle(w.issues[issue].title).Some?
    ensures var v := VersionInTitle(w.issues[issue].title).value;
            tag == RcTag(v, NextRc(v, w.tags)) && BranchName(v) in w.branches
            && GateAndTag(w, issue, env).0.tags[tag] == w.branches[BranchName(v)]
    ensures AllSettled(Backports(w.issues[issue].body))
  {
    hide VersionInTitle, BranchName, RcTag, NextRc, AllSettled, Backports, LastOfKind, AddRcTask, Update,
         AlreadyTagged, Short, RcTaskName;
  }

  // ------------------------------------------------------------------- promote

  lemma PromotedVersionIsValid(w: World, version: Option<Version>, issue: Option<nat>)
    requires version.Some? ==> ValidVersion(version.value)
    ensures PromotedVersion(w, version, issue).Some? ==> ValidVersion(PromotedVersion(w, version, issue).value)
  {
    hide ValidVersion, VersionInTitle;
    if issue.Some? && issue.value in w.issues { TitleVersionIsValid(w.issues[issue.value].title); }
  }

  /** What promote checks before it tags. */
  ghost predicate MayPromote(w: World, version: Option<Version>, issue: Option<nat>) {
    && PromotedVersion(w, version, issue).Some? && issue.Some? && issue.value in w.issues
    && var v := PromotedVersion(w, version, issue).value;
    && VersionText(v) !in w.tags && BranchName(v) in w.branches
    && (IsFirstRelease(v) ==>
         LatestRcTag(v, w.tags).Some? && w.tags[LatestRcTag(v, w.tags).value] == w.branches[BranchName(v)])
    && HasTask(SplitLines(w.issues[issue.value].body), "Tag Final")
  }

  /** Promote tags exactly when every check has passed, even if the issue cannot
      be updated then; otherwise, and in a dry run, branches and tags stay. */
  lemma PromoteTagsIff(w: World, version: Option<Version>, issue: Option<nat>, saveFails: bool, dryRun: bool)
    ensures var (w', code) := Promote(w, version, issue, saveFails, dryRun);
            && w'.branches == w.branches
            && (code == 0 <==> MayPromote(w, version, issue) && (dryRun || !saveFails))
            && w'.tags == if MayPromote(w, version, issue) && !dryRun then
                 var v := PromotedVersion(w, version, issue).value; w.tags[VersionText(v) := w.branches[BranchName(v)]]
               else w.tags
  {
    hide PromotedVersion, VersionText, BranchName, IsFirstRelease, LatestRcTag, Short, Named, UpdatedLines, Joined,
         SplitLines;
  }

  /** Past the checks, the issue's final task is rewritten unless saving fails. */
  lemma PromotedBody(w: World, version: Option<Version>, issue: Option<nat>, saveFails: bool, v: Version)
    returns (md: Metadata)
    requires MayPromote(w, version, issue) && PromotedVersion(w, version, issue) == Some(v)
    ensures md != []
    ensures Promote(w, version, issue, saveFails, false).0
            == Recorded(Tagged(w, VersionText(v), w.branches[BranchName(v)]), issue.value, "Tag Final", true, md,
                saveFails).0
  {
    md := [Pair("status", "done"), Pair("tag", VersionText(v)), Pair("commit", Short(w.branches[BranchName(v)].sha))];
    assert Update(w.issues[issue.value].body, "Tag Final", true, md).Some?
           by { hide Named, UpdatedLines, Joined, SplitLines; }
    hide PromotedVersion, VersionText, BranchName, IsFirstRelease, LatestRcTag, Short, Update, HasTask, SplitLines;
  }

  lemma PromoteOk(w: World, version: Option<Version>, issue: Option<nat>, saveFails: bool, dryRun: bool, merges: Merges)
    requires Inv(w, merges) && (version.Some? ==> ValidVersion(version.value))
    ensures Inv(Promote(w, version, issue, saveFails, dryRun).0, merges)
            && Grows(w, Promote(w, version, issue, saveFails, dryRun).0)
  {
    if MayPromote(w, version, issue) && !dryRun {
      PromotedVersionIsValid(w, version, issue);
      var v := PromotedVersion(w, version, issue).value;
      var md := PromotedBody(w, version, issue, saveFails, v);
      var tagged := Tagged(w, VersionText(v), w.branches[BranchName(v)]);
      hide Promote, Inv, Grows, PromotedVersion, ValidVersion, VersionText, BranchName, LatestRcTag, Update, Recorded;
      FinalTagged(w, v, merges);
      FixedNamesAreGood(md);
      RecordedOk(tagged, issue.value, "Tag Final", true, md, saveFails, merges);
      GrowsTransitive(w, tagged, Promote(w, version, issue, saveFails, dryRun).0);
    } else {
      RefusedOk(w, version, issue, saveFails, dryRun, merges);
    }
  }

  /** A refused promotion changes at most the issue's final task. */
  lemma RefusedOk(w: World, version: Option<Version>, issue: Option<nat>, saveFails: bool, dryRun: bool, merges: Merges)
    requires Inv(w, merges) && (!MayPromote(w, version, issue) || dryRun)
    ensures Inv(Promote(w, version, issue, saveFails, dryRun).0, merges)
            && Grows(w, Promote(w, version, issue, saveFails, dryRun).0)
  {
    GrowsReflexive(w);
    assert forall b, md :: HasTask(SplitLines(b), "Tag Final") <==> Update(b, "Tag Final", true, md).Some? by {
      hide Named, UpdatedLines, Joined, SplitLines;
    }
    hide PromotedVersion, VersionText, BranchName, LatestRcTag, IsFirstRelease, Update, Short, Inv, Grows, Recorded,
         HasTask, SplitLines;
    if Promote(w, version, issue, saveFails, dryRun).0 != w {
      var v := PromotedVersion(w, version, issue).value;
      var latest := LatestRcTag(v, w.tags).value;
      var md := [Pair("status", "error-rc-tag-not-branch-head"), Pair("rc", latest),
                 Pair("branch_commit", Short(w.branches[BranchName(v)].sha)),
                     Pair("tag_commit", Short(w.tags[latest].sha))];
      FixedNamesAreGood(md);
      RecordedOk(w, issue.value, "Tag Final", false, md, saveFails, merges);
    }
  }

  /** `c` is the commit of the highest candidate of `v`. */
  ghost predicate IsHighestCandidate(tags: map<string, Commit>, v: Version, c: Commit) {
    var n := NextRc(v, tags);
    n > 0 && RcTag(v, n - 1) in tags && tags[RcTag(v, n - 1)] == c
  }

  /** `c` holds every backport that an issue of the branch marks done. */
  ghost predicate HoldsAllOf(w: World, branch: string, c: Commit, merges: Merges) {
    forall n :: n in w.issues && IssueBranch(w.issues[n]) == Some(branch) ==>
        HoldsBackports(c, w.issues[n].body, merges)
  }

  function IssueBranch(issue: Issue): Option<string> {
    match VersionInTitle(issue.title) case None => None case Some(v) => Some(BranchName(v))
  }

  lemma HeadHoldsAll(w: World, branch: string, merges: Merges)
    requires Inv(w, merges) && branch in w.branches
    ensures HoldsAllOf(w, branch, w.branches[branch], merges)
  {
    hide VersionInTitle, Inv, HoldsBackports, BranchName;
    forall n | n in w.issues && IssueBranch(w.issues[n]) == Some(branch)
      ensures HoldsBackports(w.branches[branch], w.issues[n].body, merges)
    {
      HeadHoldsBackports(w, n, VersionInTitle(w.issues[n].title).value, merges);
    }
  }

  lemma LatestIsHighestCandidate(w: World, v: Version)
    requires CandidatesOk(w) && ValidVersion(v) && LatestRcTag(v, w.tags).Some?
    ensures IsHighestCandidate(w.tags, v, w.tags[LatestRcTag(v, w.tags).value])
  {
    hide ValidVersion, IsRcTag, RcNumber, RcTag, IsAncestor;
    assert CandidateOk(w, v, LatestRcTag(v, w.tags).value);
  }

  /** A version that promote tags, whatever it exits with, is tagged at its branch
      head, which holds every backport marked done in any issue of that branch; a
      first release is also the highest candidate. */
  lemma PromotedIsHead(w: World, version: Option<Version>, issue: Option<nat>, saveFails: bool, v: Version,
                       merges: Merges)
    requires Inv(w, merges) && (version.Some? ==> ValidVersion(version.value))
             && PromotedVersion(w, version, issue) == Some(v)
    requires Promote(w, version, issue, saveFails, false).0.tags != w.tags
    ensures VersionText(v) !in w.tags && BranchName(v) in w.branches
    ensures Promote(w, version, issue, saveFails, false).0.tags == w.tags[VersionText(v) := w.branches[BranchName(v)]]
    ensures IsFirstRelease(v) ==> IsHighestCandidate(w.tags, v, w.branches[BranchName(v)])
    ensures HoldsAllOf(w, BranchName(v), w.branches[BranchName(v)], merges)
  {
    PromoteTagsIff(w, version, issue, saveFails, false);
    PromotedVersionIsValid(w, version, issue);
    assert Inv(w, merges) ==> CandidatesOk(w);
    hide Promote, PromotedVersion, ValidVersion, BranchName, VersionText, Inv, CandidatesOk, IsHighestCandidate,
         HoldsAllOf, IsFirstRelease, LatestRcTag, Update;
    HeadHoldsAll(w, BranchName(v), merges);
    if IsFirstRelease(v) { LatestIsHighestCandidate(w, v); }
  }
}
