/** Safety of every run of the release commands. */
module ReleaseSafety {
  import opened Text
  import opened Checklist
  import opened IssueBody
  import opened GitGraph
  import opened ReleaseSteps
  import opened ReleaseIssueSafety

  function HeadFor(branches: map<string, Commit>, title: string): Option<Commit> {
    match VersionInTitle(title)
    case None => None
    case Some(v) => if BranchName(v) in branches then Some(branches[BranchName(v)]) else None
  }

  /** Every issue lists as done only backports that its release branch holds. */
  ghost predicate IssuesOk(w: World, merges: Merges) {
    forall n :: n in w.issues ==> BodyOk(w.issues[n].body, HeadFor(w.branches, w.issues[n].title), merges)
  }

  /** A candidate is numbered canonically, lies on its branch, and every earlier
      candidate exists on an ancestor of it. */
  ghost predicate CandidateOk(w: World, v: Version, tag: string)
    requires tag in w.tags && IsRcTag(v, tag)
  {
    && tag == RcTag(v, RcNumber(v, tag))
    && BranchName(v) in w.branches && IsAncestor(w.tags[tag], w.branches[BranchName(v)])
    && forall i: nat :: i <= RcNumber(v, tag) ==> RcTag(v, i) in w.tags && IsAncestor(w.tags[RcTag(v, i)], w.tags[tag])
  }

  ghost predicate CandidatesOk(w: World) {
    forall v, tag :: ValidVersion(v) && tag in w.tags && IsRcTag(v, tag) ==> CandidateOk(w, v, tag)
  }

  /** A final tag lies on its branch; a first release is one of its candidates. */
  ghost predicate FinalOk(w: World, v: Version)
    requires VersionText(v) in w.tags
  {
    var c := w.tags[VersionText(v)];
    && BranchName(v) in w.branches && IsAncestor(c, w.branches[BranchName(v)])
    && (IsFirstRelease(v) ==> exists n :: RcTag(v, n) in w.tags && w.tags[RcTag(v, n)] == c)
  }

  ghost predicate FinalsOk(w: World) {
    forall v :: ValidVersion(v) && VersionText(v) in w.tags ==> FinalOk(w, v)
  }

  ghost predicate Inv(w: World, merges: Merges) {
    IssuesOk(w, merges) && CandidatesOk(w) && FinalsOk(w)
  }

  ghost predicate BranchesGrow(b: map<string, Commit>, c: map<string, Commit>) {
    forall n :: n in b ==> n in c && IsAncestor(b[n], c[n])
  }

  /** Branches only move to descendants, tags never move, titles stay. */
  ghost predicate Grows(w: World, w': World) {
    && BranchesGrow(w.branches, w'.branches)
    && (forall t :: t in w.tags ==> t in w'.tags && w'.tags[t] == w.tags[t])
    && (forall n :: n in w.issues ==> n in w'.issues && w'.issues[n].title == w.issues[n].title)
  }

  lemma GrowsReflexive(w: World)
    ensures Grows(w, w)
  {
  }

  lemma GrowsTransitive(a: World, b: World, c: World)
    requires Grows(a, b) && Grows(b, c)
    ensures Grows(a, c)
  {
    hide IsAncestor;
    forall n | n in a.branches ensures n in c.branches && IsAncestor(a.branches[n], c.branches[n]) {
      AncestorTransitive(a.branches[n], b.branches[n], c.branches[n]);
    }
  }

  // ---------------------------------------------------------- branches and bodies

  lemma HeadForGrows(b: map<string, Commit>, c: map<string, Commit>, title: string)
    requires BranchesGrow(b, c)
    ensures HeadGrows(HeadFor(b, title), HeadFor(c, title))
  {
    hide IsAncestor, VersionInTitle, BranchName;
  }

  /** Moving branches forward keeps the invariant. */
  lemma BranchesMoved(w: World, branches: map<string, Commit>, merges: Merges)
    requires Inv(w, merges) && BranchesGrow(w.branches, branches)
    ensures Inv(w.(branches := branches), merges)
    ensures Grows(w, w.(branches := branches))
  {
    var w' := w.(branches := branches);
    assert IssuesOk(w', merges) by {
      hide BodyOk, HeadFor, BranchesGrow;
      forall n | n in w.issues
        ensures BodyOk(w.issues[n].body, HeadFor(branches, w.issues[n].title), merges)
      {
        HeadForGrows(w.branches, branches, w.issues[n].title);
        BodyOkGrows(w.issues[n].body, HeadFor(w.branches, w.issues[n].title), HeadFor(branches, w.issues[n].title),
            merges);
      }
    }
    TagsFollow(w, branches);
  }

  lemma TagsFollow(w: World, branches: map<string, Commit>)
    requires CandidatesOk(w) && FinalsOk(w) && BranchesGrow(w.branches, branches)
    ensures CandidatesOk(w.(branches := branches)) && FinalsOk(w.(branches := branches))
  {
    hide IsAncestor, IsRcTag, RcNumber, RcTag, VersionText, BranchName, ValidVersion, IsFirstRelease;
    var w' := w.(branches := branches);
    forall v, tag | ValidVersion(v) && tag in w.tags && IsRcTag(v, tag) ensures CandidateOk(w', v, tag) {
      assert CandidateOk(w, v, tag);
      AncestorTransitive(w.tags[tag], w.branches[BranchName(v)], branches[BranchName(v)]);
    }
    forall v | ValidVersion(v) && VersionText(v) in w.tags ensures FinalOk(w', v) {
      assert FinalOk(w, v);
      AncestorTransitive(w.tags[VersionText(v)], w.branches[BranchName(v)], branches[BranchName(v)]);
    }
  }

  /** Rewriting a body by an acceptable one keeps the invariant. */
  lemma BodyWritten(w: World, issue: nat, body: Body, merges: Merges)
    requires Inv(w, merges) && issue in w.issues
    requires BodyOk(body, HeadFor(w.branches, w.issues[issue].title), merges)
    ensures Inv(WithBody(w, issue, body), merges)
    ensures Grows(w, WithBody(w, issue, body))
  {
    hide BodyOk, HeadFor, IsAncestor, IsRcTag, RcNumber, RcTag, VersionText, BranchName, ValidVersion, IsFirstRelease;
    var w' := WithBody(w, issue, body);
    forall v, tag | ValidVersion(v) && tag in w'.tags && IsRcTag(v, tag) ensures CandidateOk(w', v, tag) {
      assert CandidateOk(w, v, tag);
    }
    forall v | ValidVersion(v) && VersionText(v) in w'.tags ensures FinalOk(w', v) {
      assert FinalOk(w, v);
    }
    BranchesGrowReflexive(w.branches);
    hide BranchesGrow;
  }

  lemma BranchesGrowReflexive(b: map<string, Commit>)
    ensures BranchesGrow(b, b)
  {
  }

  // ------------------------------------------------------------- recording tasks

  lemma RecordedOk(w: World, issue: nat, task: string, checked: bool, md: Metadata, saveFails: bool, merges: Merges)
    requires Inv(w, merges) && issue in w.issues
    requires GoodName(task, md) && !IsPrRef(task)
    ensures Inv(Recorded(w, issue, task, checked, md, saveFails).0, merges)
    ensures Grows(w, Recorded(w, issue, task, checked, md, saveFails).0)
  {
    var head := HeadFor(w.branches, w.issues[issue].title);
    OtherTaskLineOk(checked, task, md, head, merges);
    hide GoodName, IsPrRef, FormatLine, LineOk;
    UpdateOk(w.issues[issue].body, task, checked, md, head, merges);
    GrowsReflexive(w);
    var updated := Update(w.issues[issue].body, task, checked, md);
    hide Update, BodyOk, Inv, Grows, HeadFor;
    if updated.Some? { BodyWritten(w, issue, updated.value, merges); }
  }

  lemma FixedNamesAreGood(md: Metadata)
    requires md != []
    ensures GoodName("Create Release branch", md) && !IsPrRef("Create Release branch")
    ensures GoodName("Tag Final", md) && !IsPrRef("Tag Final")
  {
    assert "Create Release branch"[0] == 'C' && "Tag Final"[0] == 'T';
    assert "Create Release branch"[20] == 'h' && "Tag Final"[8] == 'l';
  }

  // ------------------------------------------------------- create-release-branch

  lemma CreateBranchOk(w: World, issue: nat, env: Env, merges: Merges)
    requires Inv(w, merges)
    ensures Inv(CreateReleaseBranch(w, issue, env).0, merges)
    ensures Grows(w, CreateReleaseBranch(w, issue, env).0)
  {
    GrowsReflexive(w);
    hide LastOfKind, VersionInTitle, Recorded, TaskCommit, TaskStatus, Inv, Grows, Update, Short;
    if CreateReleaseBranch(w, issue, env).0 != w {
      var v := VersionInTitle(w.issues[issue].title).value;
      var commit := TaskCommit(LastOfKind(SplitLines(w.issues[issue].body), Preparing));
      PushReleaseOk(w, BranchName(v), commit, env, merges);
      var pushed := PushRelease(w, BranchName(v), commit, env).value;
      var md := [Pair("status", "done"), Pair("branch_url", BranchUrl(v)), Pair("commit", Short(commit))];
      hide BranchUrl, BranchName, PushRelease;
      FixedNamesAreGood(md);
      RecordedOk(pushed, issue, "Create Release branch", true, md, env.closingFails, merges);
      GrowsTransitive(w, pushed, CreateReleaseBranch(w, issue, env).0);
    }
  }

  lemma PushReleaseOk(w: World, branch: string, commit: string, env: Env, merges: Merges)
    requires Inv(w, merges)
    ensures PushRelease(w, branch, commit, env).Some? ==>
              var p := PushRelease(w, branch, commit, env).value;
              Inv(p, merges) && Grows(w, p) && p.issues == w.issues && branch in p.branches
  {
    GrowsReflexive(w);
    var r := PushRelease(w, branch, commit, env);
    if r.Some? && r.value != w {
      forall n | n in w.branches ensures n in r.value.branches && IsAncestor(w.branches[n], r.value.branches[n]) {}
      BranchesMoved(w, r.value.branches, merges);
    }
  }
}
