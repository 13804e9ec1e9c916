/** Exactly when create-release-branch and promote move a branch or a tag, and
    what they leave in the tracking issue. */
module ReleaseCut {
  import opened Text
  import opened Decimal
  import opened Checklist
  import opened IssueBody
  import opened IssueInserts
  import opened GitGraph
  import opened ReleaseNames
  import opened ReleaseSteps
  import opened ReleaseIssueSafety
  import opened ReleaseRuns
  import opened ReleaseNotes
  import opened ReleaseGate

  /** Where the commit to release is noted as prepared. */
  ghost predicate PreparedAt(lines: seq<string>, commit: string) {
    exists i: nat, t :: IsLastOf(lines, i, Preparing) && ParseLine(lines[i]) == Some(t)
                        && Get(t.metadata, "status") == Some("done") && Get(t.metadata, "commit") == Some(commit)
  }

  ghost predicate IsCut(lines: seq<string>) {
    exists i: nat, t :: IsLastOf(lines, i, Branching) && ParseLine(lines[i]) == Some(t) && t.checked
  }

  lemma PreparedIs(lines: seq<string>, commit: string)
    requires commit != ""
    ensures PreparedAt(lines, commit) <==>
              var t := LastOfKind(lines, Preparing); TaskStatus(t) == Some("done") && TaskCommit(t) == commit
  {
    LastOfKindIs(lines, Preparing);
    hide ParseLine, LineKind, Get, LastOfKind;
    var last := LastOfKind(lines, Preparing);
    if last.Some? {
      var j: nat :| IsLastOf(lines, j, Preparing) && ParseLine(lines[j]) == last;
      if PreparedAt(lines, commit) {
        var i: nat, t :| IsLastOf(lines, i, Preparing) && ParseLine(lines[i]) == Some(t)
                        && Get(t.metadata, "status") == Some("done") && Get(t.metadata, "commit") == Some(commit);
        assert i == j;
      }
    }
  }

  lemma IsCutIs(lines: seq<string>)
    ensures IsCut(lines) <==> var t := LastOfKind(lines, Branching); t.Some? && t.value.checked
  {
    LastOfKindIs(lines, Branching);
    hide ParseLine, LineKind, LastOfKind;
    var last := LastOfKind(lines, Branching);
    if last.Some? {
      var j: nat :| IsLastOf(lines, j, Branching) && ParseLine(lines[j]) == last;
      if IsCut(lines) {
        var i: nat, t :| IsLastOf(lines, i, Branching) && ParseLine(lines[i]) == Some(t) && t.checked;
        assert i == j;
      }
    }
  }

  /** The branch is at the commit, or can be created there or moved forward to it. */
  predicate MayPush(w: World, branch: string, commit: string, env: Env) {
    || (branch in w.branches && w.branches[branch].sha == commit)
    || (commit in env.objects && (branch in w.branches ==> IsAncestor(w.branches[branch], env.objects[commit])))
  }

  function CutTask(v: Version, commit: string): Edit {
    Edit("Create Release branch", true,
         [Pair("status", "done"),
          Pair("branch_url",
               "https://github.com/bazel-contrib/rules_python/tree/release/" + v.major + "." + v.minor),
          Pair("commit", Short(commit))])
  }

  /** The branch is cut or moved, and its task closed. */
  ghost predicate Cuts(w: World, issue: nat, v: Version, commit: string, env: Env, w': World, code: int) {
    var branch := "release/" + v.major + "." + v.minor;
    && w'.tags == w.tags && OnlyBody(w, w', issue) && MayPush(w, branch, commit, env)
    && w'.branches == (if branch in w.branches && w.branches[branch].sha == commit then w.branches
                       else w.branches[branch := env.objects[commit]])
    && var (body, after) := (w.issues[issue].body, w'.issues[issue].body);
    && (code == 0 <==> !env.closingFails && exists l :: l in SplitLines(body) && NamesTask(l, "create release branch"))
    && (code != 0 ==> after == body)
    && (code == 0 && IsShort(commit) ==> IsEdited(body, after, [CutTask(v, commit)]))
  }

  lemma RecordedIs(w: World, issue: nat, e: Edit, saveFails: bool)
    requires issue in w.issues
    ensures var ((w', code), body) :=
              (Recorded(w, issue, e.ref, e.checked, e.metadata, saveFails), w.issues[issue].body);
            && w'.tags == w.tags && w'.branches == w.branches && OnlyBody(w, w', issue)
            && (code == 0 <==> !saveFails && exists l :: l in SplitLines(body) && NamesTask(l, Lower(e.ref)))
            && (code != 0 ==> code == 1 && w' == w)
            && (code == 0 && GoodEdit(e) ==> IsEdited(body, w'.issues[issue].body, [e]))
  {
    var body := w.issues[issue].body;
    ListedIff(SplitLines(body), e.ref);
    SameBody(w, issue);
    CanUpdate(body, e);
    RecordedStep(w, issue, e, saveFails);
    hide *;
    var updated := Update(body, e.ref, e.checked, e.metadata);
    OnlyBodyWritten(w, issue, body);
    if updated.Some? {
      OnlyBodyWritten(w, issue, updated.value);
      if GoodEdit(e) { EditedOnce(body, e, updated.value); }
    }
  }

  lemma RecordedStep(w: World, issue: nat, e: Edit, saveFails: bool)
    requires issue in w.issues
    ensures var updated := Update(w.issues[issue].body, e.ref, e.checked, e.metadata);
            Recorded(w, issue, e.ref, e.checked, e.metadata, saveFails)
            == if updated.None? || saveFails then (w, 1) else (WithBody(w, issue, updated.value), 0)
  {
    hide Update;
  }

  lemma OnlyBodyWritten(w: World, issue: nat, body: Body)
    requires issue in w.issues
    ensures var w' := WithBody(w, issue, body);
            && OnlyBody(w, w', issue) && w'.issues[issue].body == body
            && w'.branches == w.branches && w'.tags == w.tags
  {
  }

  lemma CanUpdate(body: Body, e: Edit)
    ensures Update(body, e.ref, e.checked, e.metadata).Some? <==> HasTask(SplitLines(body), e.ref)
  {
    hide Named, UpdatedLines, Joined;
  }

  lemma PushReleaseIs(w: World, branch: string, commit: string, env: Env)
    ensures PushRelease(w, branch, commit, env)
            == if !MayPush(w, branch, commit, env) then None
               else if branch in w.branches && w.branches[branch].sha == commit then Some(w)
               else Some(w.(branches := w.branches[branch := env.objects[commit]]))
  {
    hide IsAncestor;
  }

  lemma ShortParts()
    ensures IsShort("https://github.com/bazel") && IsShort("-contrib/rules_python") && IsShort("/tree/release/")
  {
    var (a, b, c) := ("https://github.com/bazel", "-contrib/rules_python", "/tree/release/");
    assert forall i :: 0 <= i < |a| ==> !IsSpace(a[i]);
    assert forall i :: 0 <= i < |b| ==> !IsSpace(b[i]);
    assert forall i :: 0 <= i < |c| ==> !IsSpace(c[i]);
  }

  lemma ShortConcat(a: string, b: string)
    requires IsShort(a) && IsShort(b)
    ensures IsShort(a + b)
  {
  }

  lemma UrlHasNoBlanks()
    ensures IsShort("https://github.com/bazel-contrib/rules_python/tree/release/")
  {
    ShortParts();
    hide IsShort;
    var (a, b, c) := ("https://github.com/bazel", "-contrib/rules_python", "/tree/release/");
    ShortConcat(a, b);
    ShortConcat(a + b, c);
    assert a + b + c == "https://github.com/bazel-contrib/rules_python/tree/release/";
  }

  lemma CutIsGood(v: Version, commit: string)
    requires ValidVersion(v) && IsShort(commit)
    ensures GoodEdit(CutTask(v, commit))
  {
    var url := "https://github.com/bazel-contrib/rules_python/tree/release/" + v.major + "." + v.minor;
    var md := [Pair("status", "done"), Pair("branch_url", url), Pair("commit", Short(commit))];
    hide IsNumeral;
    NoSpace(v.major);
    NoSpace(v.minor);
    UrlHasNoBlanks();
    assert IsShort(url);
    assert GoodPair(Pair("status", "done"));
    assert GoodPair(Pair("branch_url", url));
    assert GoodPair(Pair("commit", Short(commit)));
    CutNameIsGood(md);
    hide GoodPair, IsShort, ValidVersion, GoodName, Short;
  }

  lemma CutNameIsGood(md: Metadata)
    ensures GoodName("Create Release branch", md) && GoodName("Tag Final", md)
  {
    assert "Create Release branch"[0] == 'C' && "Tag Final"[0] == 'T';
    assert "Create Release branch"[20] == 'h' && "Tag Final"[8] == 'l';
  }

  ghost predicate IsPrepared(lines: seq<string>) {
    exists c :: c != "" && PreparedAt(lines, c)
  }

  lemma IsPreparedIs(lines: seq<string>)
    ensures var t := LastOfKind(lines, Preparing);
            IsPrepared(lines) <==> TaskStatus(t) == Some("done") && TaskCommit(t) != ""
  {
    var t := LastOfKind(lines, Preparing);
    if TaskCommit(t) != "" { PreparedIs(lines, TaskCommit(t)); }
    hide PreparedAt, LastOfKind, TaskCommit, TaskStatus;
    if c :| c != "" && PreparedAt(lines, c) { PreparedIs(lines, c); }
  }

  /** Nothing happens without a prepared commit, and nothing is left to do when the
      branching task is checked. */
  lemma CutStops(w: World, issue: nat, env: Env)
    ensures issue !in w.issues || !IsPrepared(SplitLines(w.issues[issue].body)) ==>
              CreateReleaseBranch(w, issue, env) == (w, 1)
    ensures issue in w.issues && IsPrepared(SplitLines(w.issues[issue].body))
            && IsCut(SplitLines(w.issues[issue].body)) ==>
              CreateReleaseBranch(w, issue, env) == (w, 0)
  {
    if issue in w.issues {
      var lines := SplitLines(w.issues[issue].body);
      IsPreparedIs(lines);
      IsCutIs(lines);
      hide IsPrepared, IsCut, LastOfKind, TaskStatus, TaskCommit, VersionInTitle, PushRelease, Recorded, BranchName,
           BranchUrl, Short;
    }
  }

  /** Past these checks the branch is cut or moved exactly when the title has a
      version and the branch can be pushed; nothing happens otherwise. */
  lemma CutsIff(w: World, issue: nat, commit: string, env: Env)
    requires issue in w.issues && commit != "" && PreparedAt(SplitLines(w.issues[issue].body), commit)
    requires !IsCut(SplitLines(w.issues[issue].body))
    ensures var ((w', code), title) := (CreateReleaseBranch(w, issue, env), VersionInTitle(w.issues[issue].title));
            if title.Some? && MayPush(w, "release/" + title.value.major + "." + title.value.minor, commit, env)
            then Cuts(w, issue, title.value, commit, env, w', code)
            else w' == w && code == 1
  {
    CutStep(w, issue, commit, env);
    hide *;
    var title := VersionInTitle(w.issues[issue].title);
    if title.Some? {
      BranchUrlIs(title.value);
      PushReleaseIs(w, BranchName(title.value), commit, env);
      if MayPush(w, BranchName(title.value), commit, env) { CutPushed(w, issue, title.value, commit, env); }
    }
  }

  lemma CutStep(w: World, issue: nat, commit: string, env: Env)
    requires issue in w.issues && commit != "" && PreparedAt(SplitLines(w.issues[issue].body), commit)
    requires !IsCut(SplitLines(w.issues[issue].body))
    ensures CreateReleaseBranch(w, issue, env)
            == match VersionInTitle(w.issues[issue].title)
               case None => (w, 1)
               case Some(v) =>
                 match PushRelease(w, BranchName(v), commit, env)
                 case None => (w, 1)
                 case Some(pushed) =>
                   Recorded(pushed, issue, "Create Release branch", true,
                            [Pair("status", "done"), Pair("branch_url", BranchUrl(v)), Pair("commit", Short(commit))],
                            env.closingFails)
  {
    var lines := SplitLines(w.issues[issue].body);
    IsCutIs(lines);
    PreparedIs(lines, commit);
    hide PreparedAt, IsCut, LastOfKind, TaskStatus, TaskCommit, VersionInTitle, PushRelease, Recorded, BranchName,
         BranchUrl, Short, SplitLines;
  }

  lemma CutPushed(w: World, issue: nat, v: Version, commit: string, env: Env)
    requires issue in w.issues && VersionInTitle(w.issues[issue].title) == Some(v)
    requires MayPush(w, BranchName(v), commit, env)
    ensures var pushed := PushRelease(w, BranchName(v), commit, env);
            && pushed.Some? && issue in pushed.value.issues
            && var (w', code) := Recorded(pushed.value, issue, "Create Release branch", true,
                                   [Pair("status", "done"), Pair("branch_url", BranchUrl(v)),
                                       Pair("commit", Short(commit))],
                                   env.closingFails);
               Cuts(w, issue, v, commit, env, w', code)
  {
    LowerNames();
    BranchUrlIs(v);
    PushReleaseIs(w, BranchName(v), commit, env);
    TitleVersionIsValid(w.issues[issue].title);
    var e := CutTask(v, commit);
    assert e == Edit("Create Release branch", true,
                     [Pair("status", "done"), Pair("branch_url", BranchUrl(v)), Pair("commit", Short(commit))]);
    hide PushRelease, MayPush, Recorded, Lower, NamesTask, ValidVersion, GoodEdit, IsShort, IsEdited, VersionInTitle,
         Short, CutTask, BranchUrl, BranchName;
    if IsShort(commit) { CutIsGood(v, commit); }
    RecordedIs(PushRelease(w, BranchName(v), commit, env).value, issue, e, env.closingFails);
  }

  lemma BranchUrlIs(v: Version)
    ensures BranchUrl(v) == "https://github.com/bazel-contrib/rules_python/tree/release/" + v.major + "." + v.minor
    ensures BranchName(v) == "release/" + v.major + "." + v.minor
  {
    assert "https://github.com/bazel-contrib/rules_python/tree/" + "release/"
           == "https://github.com/bazel-contrib/rules_python/tree/release/";
    assert BranchUrl(v) == "https://github.com/bazel-contrib/rules_python/tree/" + "release/" + v.major + "." + v.minor;
  }

  /** The names that the commands give, and how they shorten a commit. */
  lemma NamesAre(v: Version, n: nat, sha: string)
    ensures VersionText(v) == v.major + "." + v.minor + "." + v.patch
            && BranchName(v) == "release/" + v.major + "." + v.minor
    ensures RcTag(v, n) == v.major + "." + v.minor + "." + v.patch + "-rc" + FromNat(n)
    ensures Short(sha) <= sha && |Short(sha)| == if |sha| < 8 then |sha| else 8
  {
  }

  // -------------------------------------------------------------------- promote

  function FinalTask(v: Version, head: Commit): Edit {
    Edit("Tag Final", true,
         [Pair("status", "done"), Pair("tag", v.major + "." + v.minor + "." + v.patch),
             Pair("commit", Short(head.sha))])
  }

  function RefusedTask(latest: string, head: Commit, tagged: Commit): Edit {
    Edit("Tag Final", false,
         [Pair("status", "error-rc-tag-not-branch-head"), Pair("rc", latest),
          Pair("branch_commit", Short(head.sha)), Pair("tag_commit", Short(tagged.sha))])
  }

  /** The refusal that is noted: the highest candidate is not the branch's head. */
  ghost predicate IsOutdated(w: World, v: Version, issue: Option<nat>) {
    && VersionText(v) !in w.tags && issue.Some? && issue.value in w.issues && IsFirstRelease(v)
    && BranchName(v) in w.branches && LatestRcTag(v, w.tags).Some?
    && w.tags[LatestRcTag(v, w.tags).value] != w.branches[BranchName(v)]
  }

  /** Every commit has a name that can be noted. */
  ghost predicate ShasAreShort(w: World) {
    && (forall b :: b in w.branches ==> IsShort(w.branches[b].sha))
    && (forall t :: t in w.tags ==> IsShort(w.tags[t].sha))
  }

  lemma FinalIsGood(v: Version, head: Commit)
    requires ValidVersion(v) && IsShort(head.sha)
    ensures GoodEdit(FinalTask(v, head))
  {
    var e := FinalTask(v, head);
    VersionTextIsShort(v);
    CutNameIsGood(e.metadata);
    assert GoodPair(Pair("status", "done"));
    assert GoodPair(Pair("tag", VersionText(v)));
    assert IsShort(Short(head.sha)) && GoodPair(Pair("commit", Short(head.sha)));
    hide GoodPair, IsShort, ValidVersion, GoodName, Short;
  }

  lemma VersionTextIsShort(v: Version)
    requires ValidVersion(v)
    ensures IsShort(VersionText(v))
  {
    var (a, b, c) := (v.major, v.minor, v.patch);
    hide IsNumeral;
    NoSpace(a);
    NoSpace(b);
    assert forall i :: 0 <= i < |c| ==> !IsSpace(c[i]);
    assert IsShort(a + "." + b + "." + c);
  }

  lemma ShortPieces()
    ensures IsShort("-rc") && IsShort("error-rc-tag-not-branch-head")
  {
    assert forall i :: 0 <= i < 3 ==> !IsSpace("-rc"[i]);
    assert IsDashed("error-rc-tag-not-branch-head");
  }

  lemma NumeralIsShort(d: string)
    requires IsNumeral(d)
    ensures IsShort(d)
  {
  }

  lemma RefusedIsGood(latest: string, head: Commit, tagged: Commit)
    requires IsShort(latest) && IsShort(head.sha) && IsShort(tagged.sha)
    ensures GoodEdit(RefusedTask(latest, head, tagged))
  {
    var e := RefusedTask(latest, head, tagged);
    ShortPieces();
    CutNameIsGood(e.metadata);
    assert IsShort(Short(head.sha)) && IsShort(Short(tagged.sha));
    GoodKeys();
    hide IsShort, GoodName, Short;
    assert GoodMetadata(e.metadata);
  }

  lemma GoodKeys()
    ensures forall v :: IsShort(v) ==> GoodPair(Pair("status", v)) && GoodPair(Pair("rc", v))
                                       && GoodPair(Pair("branch_commit", v)) && GoodPair(Pair("tag_commit", v))
  {
  }

  lemma RcTagIsShort(v: Version, tag: string)
    requires ValidVersion(v) && IsRcTag(v, tag)
    ensures IsShort(tag)
  {
    VersionTextIsShort(v);
    hide IsShort, VersionText, ValidVersion;
    var prefix := VersionText(v) + "-rc";
    ShortPieces();
    ShortConcat(VersionText(v), "-rc");
    var d := tag[|prefix|..];
    NumeralIsShort(d);
    ShortConcat(prefix, d);
    assert tag == prefix + d;
  }

  /** What the outcome notes: nothing in a dry run, where saving fails, or where the
      task is not listed. */
  ghost predicate NotesEdit(w: World, w': World, issue: nat, e: Edit, silent: bool) {
    && OnlyBody(w, w', issue)
    && var (body, after) := (w.issues[issue].body, w'.issues[issue].body);
    && if silent || !exists l :: l in SplitLines(body) && NamesTask(l, Lower(e.ref)) then after == body
       else IsEdited(body, after, [e])
  }

  lemma OutdatedStep(w: World, version: Option<Version>, issue: Option<nat>, saveFails: bool, dryRun: bool, v: Version)
    requires PromotedVersion(w, version, issue) == Some(v) && IsOutdated(w, v, issue)
    ensures var (latest, head) := (LatestRcTag(v, w.tags).value, w.branches[BranchName(v)]);
            var e := RefusedTask(latest, head, w.tags[latest]);
            Promote(w, version, issue, saveFails, dryRun)
            == (if dryRun then w else Recorded(w, issue.value, e.ref, e.checked, e.metadata, saveFails).0, 1)
  {
    hide PromotedVersion, VersionText, IsFirstRelease, LatestRcTag, BranchName, Short, Recorded, Update;
  }

  lemma TaggedStep(w: World, version: Option<Version>, issue: Option<nat>, saveFails: bool, dryRun: bool, v: Version)
    requires PromotedVersion(w, version, issue) == Some(v) && MayPromote(w, version, issue)
    ensures var head := w.branches[BranchName(v)];
            var e := FinalTask(v, head);
            Promote(w, version, issue, saveFails, dryRun).0
            == if dryRun then w
               else Recorded(Tagged(w, VersionText(v), head), issue.value, e.ref, e.checked, e.metadata, saveFails).0
  {
    var e := FinalTask(v, w.branches[BranchName(v)]);
    CanUpdate(w.issues[issue.value].body, e);
    hide PromotedVersion, IsFirstRelease, LatestRcTag, BranchName, Short, Update, SplitLines, HasTask;
  }

  lemma OtherwiseStep(w: World, version: Option<Version>, issue: Option<nat>, saveFails: bool, dryRun: bool)
    requires !MayPromote(w, version, issue)
    requires var v := PromotedVersion(w, version, issue); v.None? || !IsOutdated(w, v.value, issue)
    ensures Promote(w, version, issue, saveFails, dryRun) == (w, 1)
  {
    var v := PromotedVersion(w, version, issue);
    if v.Some? && issue.Some? && issue.value in w.issues && BranchName(v.value) in w.branches {
      CanUpdate(w.issues[issue.value].body, FinalTask(v.value, w.branches[BranchName(v.value)]));
    }
    hide PromotedVersion, VersionText, IsFirstRelease, LatestRcTag, BranchName, Short, Update, SplitLines, HasTask,
         Recorded;
  }

  /** The issue that promote leaves: the final task closed with the tag, or in error
      when the highest candidate is not the branch's head, or nothing changed. */
  lemma PromoteLeaves(w: World, version: Option<Version>, issue: Option<nat>, saveFails: bool, dryRun: bool, v: Version)
    requires PromotedVersion(w, version, issue) == Some(v) && ValidVersion(v) && ShasAreShort(w)
    ensures var w' := Promote(w, version, issue, saveFails, dryRun).0;
            if MayPromote(w, version, issue) then
              NotesEdit(w, w', issue.value, FinalTask(v, w.branches[BranchName(v)]), dryRun || saveFails)
            else if IsOutdated(w, v, issue) then
              var latest := LatestRcTag(v, w.tags).value;
              NotesEdit(w, w', issue.value, RefusedTask(latest, w.branches[BranchName(v)], w.tags[latest]),
                        dryRun || saveFails)
            else w' == w
  {
    if MayPromote(w, version, issue) {
      var (head, n) := (w.branches[BranchName(v)], issue.value);
      FinalIsGood(v, head);
      TaggedStep(w, version, issue, saveFails, dryRun, v);
      hide *;
      EditNoted(w, Tagged(w, VersionText(v), head), n, FinalTask(v, head), saveFails, dryRun);
    } else if IsOutdated(w, v, issue) {
      var latest := LatestRcTag(v, w.tags).value;
      var (head, n) := (w.branches[BranchName(v)], issue.value);
      RcTagIsShort(v, latest);
      RefusedIsGood(latest, head, w.tags[latest]);
      OutdatedStep(w, version, issue, saveFails, dryRun, v);
      hide *;
      EditNoted(w, w, n, RefusedTask(latest, head, w.tags[latest]), saveFails, dryRun);
    } else {
      OtherwiseStep(w, version, issue, saveFails, dryRun);
    }
  }

  /** `w1` is `w`, perhaps with a tag more. */
  lemma EditNoted(w: World, w1: World, issue: nat, e: Edit, saveFails: bool, dryRun: bool)
    requires issue in w.issues && w1.issues == w.issues && GoodEdit(e)
    ensures NotesEdit(w, if dryRun then w else Recorded(w1, issue, e.ref, e.checked, e.metadata, saveFails).0, issue, e,
                      dryRun || saveFails)
  {
    RecordedIs(w1, issue, e, saveFails);
    OnlyBodyWritten(w, issue, w.issues[issue].body);
    SameBody(w, issue);
    hide Recorded, IsEdited, NamesTask, GoodEdit, SplitLines;
  }
}
