/** Runs: any sequence of release commands, in any order and on any issues. */
module ReleaseProtocol {
  import opened Text
  import opened Decimal
  import opened Checklist
  import opened IssueBody
  import opened GitGraph
  import opened ReleaseSteps
  import opened ReleaseNames
  import opened ReleaseIssueSafety
  import opened ReleaseSafety
  import opened ReleaseBackportSafety
  import opened ReleaseRuns

  datatype Command =
    | OpenIssue(issue: nat, title: string, body: Body)
    | NotePrepare(issue: nat, pr: nat, saveFails: bool)
    | CompletePrepare(issue: nat, pr: nat, oid: string, saveFails: bool)
    | CutBranch(issue: nat, env: Env)
    | PickBackports(issue: nat, add: seq<AddRef>, env: Env, dryRun: bool)
    | TagCandidate(issue: nat, env: Env)
    | PromoteVersion(version: Option<Version>, trackedBy: Option<nat>, saveFails: bool, dryRun: bool)

  function Noting(w: World, issue: nat, task: string, checked: bool, md: Metadata, saveFails: bool): World {
    if issue in w.issues then Recorded(w, issue, task, checked, md, saveFails).0 else w
  }

  function Step(w: World, c: Command): World {
    match c
    case OpenIssue(n, title, body) => if n in w.issues then w else w.(issues := w.issues[n := Issue(title, body)])
    case NotePrepare(n, pr, fails) =>
      Noting(w, n, "Prepare Release", false, [Pair("status", "pending"), Pair("pr", "#" + FromNat(pr))], fails)
    case CompletePrepare(n, pr, oid, fails) =>
      Noting(w, n, "Prepare Release", true,
          [Pair("status", "done"), Pair("pr", "#" + FromNat(pr)), Pair("commit", Short(oid))], fails)
    case CutBranch(n, env) => CreateReleaseBranch(w, n, env).0
    case PickBackports(n, add, env, dryRun) => ProcessBackports(w, n, add, env, dryRun).0
    case TagCandidate(n, env) => CreateRc(w, n, env).0
    case PromoteVersion(version, issue, fails, dryRun) => Promote(w, version, issue, fails, dryRun).0
  }

  function Run(w: World, cs: seq<Command>): World {
    if cs == [] then w else Step(Run(w, cs[..|cs| - 1]), cs[|cs| - 1])
  }

  /** A template lists no backports; versions and references are as the command
      line parses them; merge commits are those of `merges`. */
  ghost predicate Legal(c: Command, merges: Merges) {
    match c
    case OpenIssue(_, _, body) => forall l :: l in body ==> Backport(l).None?
    case NotePrepare(_, _, _) => true
    case CompletePrepare(_, _, _, _) => true
    case CutBranch(_, _) => true
    case PickBackports(_, add, env, _) => EnvConsistent(env, merges) && forall i :: 0 <= i < |add| ==> GoodRef(add[i])
    case TagCandidate(_, env) => EnvConsistent(env, merges)
    case PromoteVersion(version, _, _, _) => version.Some? ==> ValidVersion(version.value)
  }

  /** No tags, and no issue that lists a backport yet. */
  ghost predicate Initial(w: World) {
    && w.tags == map[]
    && forall n, l :: n in w.issues && l in w.issues[n].body ==> Backport(l).None?
  }

  lemma CleanBodyOk(body: Body, head: Option<Commit>, merges: Merges)
    requires forall l :: l in body ==> Backport(l).None?
    ensures BodyOk(body, head, merges)
  {
    hide Backport;
  }

  lemma InitialOk(w: World, merges: Merges)
    requires Initial(w)
    ensures Inv(w, merges)
  {
    hide Backport, BodyOk, HeadFor;
    forall n | n in w.issues ensures BodyOk(w.issues[n].body, HeadFor(w.branches, w.issues[n].title), merges) {
      CleanBodyOk(w.issues[n].body, HeadFor(w.branches, w.issues[n].title), merges);
    }
  }

  lemma PrepareNameIsGood(md: Metadata)
    requires md != []
    ensures GoodName("Prepare Release", md) && !IsPrRef("Prepare Release")
  {
    assert "Prepare Release"[0] == 'P' && "Prepare Release"[14] == 'e';
  }

  lemma NotingOk(w: World, issue: nat, checked: bool, md: Metadata, saveFails: bool, merges: Merges)
    requires Inv(w, merges) && md != []
    ensures Inv(Noting(w, issue, "Prepare Release", checked, md, saveFails), merges)
    ensures Grows(w, Noting(w, issue, "Prepare Release", checked, md, saveFails))
  {
    GrowsReflexive(w);
    PrepareNameIsGood(md);
    hide Inv, Grows, GoodName, IsPrRef, Recorded;
    if issue in w.issues { RecordedOk(w, issue, "Prepare Release", checked, md, saveFails, merges); }
  }

  lemma OpenOk(w: World, n: nat, title: string, body: Body, merges: Merges)
    requires Inv(w, merges) && forall l :: l in body ==> Backport(l).None?
    ensures Inv(Step(w, OpenIssue(n, title, body)), merges) && Grows(w, Step(w, OpenIssue(n, title, body)))
  {
    GrowsReflexive(w);
    if n !in w.issues {
      var w' := Step(w, OpenIssue(n, title, body));
      CleanBodyOk(body, HeadFor(w.branches, title), merges);
      BranchesGrowReflexive(w.branches);
      hide BodyOk, HeadFor, Backport, IsRcTag, RcNumber, RcTag, VersionText, BranchName, ValidVersion, IsFirstRelease,
           IsAncestor, BranchesGrow;
      forall v, tag | ValidVersion(v) && tag in w'.tags && IsRcTag(v, tag) ensures CandidateOk(w', v, tag) {
        assert CandidateOk(w, v, tag);
      }
      forall v | ValidVersion(v) && VersionText(v) in w'.tags ensures FinalOk(w', v) {
        assert FinalOk(w, v);
      }
    }
  }

  /** One command keeps the invariant, moves branches only to descendants, and
      moves no tag. */
  lemma StepOk(w: World, c: Command, merges: Merges)
    requires Inv(w, merges) && Legal(c, merges)
    ensures Inv(Step(w, c), merges) && Grows(w, Step(w, c))
  {
    hide Inv, Grows, ValidVersion, EnvConsistent, GoodRef, Noting, CreateReleaseBranch, ProcessBackports, CreateRc,
         Promote, Backport;
    match c {
      case OpenIssue(n, title, body) => OpenOk(w, n, title, body, merges);
      case NotePrepare(n, pr, fails) =>
        NotingOk(w, n, false, [Pair("status", "pending"), Pair("pr", "#" + FromNat(pr))], fails, merges);
      case CompletePrepare(n, pr, oid, fails) =>
        NotingOk(w, n, true, [Pair("status", "done"), Pair("pr", "#" + FromNat(pr)), Pair("commit", Short(oid))],
            fails, merges);
      case CutBranch(n, env) => CreateBranchOk(w, n, env, merges);
      case PickBackports(n, add, env, dryRun) => ProcessBackportsOk(w, n, add, env, dryRun, merges);
      case TagCandidate(n, env) => CreateRcOk(w, n, env, merges);
      case PromoteVersion(version, issue, fails, dryRun) => PromoteOk(w, version, issue, fails, dryRun, merges);
    }
  }

  ghost predicate AllLegal(cs: seq<Command>, merges: Merges) {
    forall i :: 0 <= i < |cs| ==> Legal(cs[i], merges)
  }

  lemma {:induction false} RunKeepsInvariant(w: World, cs: seq<Command>, merges: Merges)
    requires Inv(w, merges) && AllLegal(cs, merges)
    ensures Inv(Run(w, cs), merges) && Grows(w, Run(w, cs))
  {
    GrowsReflexive(w);
    hide Inv, Grows, Legal, Step;
    if cs != [] {
      var before := cs[..|cs| - 1];
      RunKeepsInvariant(w, before, merges);
      StepOk(Run(w, before), cs[|cs| - 1], merges);
      GrowsTransitive(w, Run(w, before), Run(w, cs));
    }
  }

  lemma {:induction false} RunConcat(w: World, a: seq<Command>, b: seq<Command>)
    ensures Run(w, a + b) == Run(Run(w, a), b)
  {
    hide Step;
    if b == [] {
      assert a + b == a;
    } else {
      RunConcat(w, a, b[..|b| - 1]);
      assert (a + b)[..|a + b| - 1] == a + b[..|b| - 1];
    }
  }

  /** The candidates of `v` are exactly its tags rc0 .. rc(k-1), each on an
      ancestor of the next and of the branch head. */
  ghost predicate CandidatesInOrder(w: World, v: Version) {
    var k := NextRc(v, w.tags);
    && (forall tag :: tag in w.tags && IsRcTag(v, tag) <==> exists i: nat :: i < k && tag == RcTag(v, i))
    && (forall i: nat, j: nat :: i <= j < k ==>
          RcTag(v, i) in w.tags && RcTag(v, j) in w.tags && IsAncestor(w.tags[RcTag(v, i)], w.tags[RcTag(v, j)]))
    && (k > 0 ==> BranchName(v) in w.branches && IsAncestor(w.tags[RcTag(v, k - 1)], w.branches[BranchName(v)]))
  }

  lemma CandidateNumbers(w: World, v: Version, tag: string)
    requires CandidatesOk(w) && ValidVersion(v)
    ensures tag in w.tags && IsRcTag(v, tag) <==> exists i: nat :: i < NextRc(v, w.tags) && tag == RcTag(v, i)
  {
    hide ValidVersion, IsRcTag, RcNumber, RcTag, NextRc, IsAncestor, BranchName, CandidatesOk;
    if tag in w.tags && IsRcTag(v, tag) {
      assert CandidateOk(w, v, tag) by { CandidateAt(w, v, tag); }
      NextRcIsAbove(v, w.tags, tag);
    }
    if i: nat :| i < NextRc(v, w.tags) && tag == RcTag(v, i) {
      EarlierCandidates(w, v, i);
      RcTagIsRc(v, i);
    }
  }

  lemma CandidateAt(w: World, v: Version, tag: string)
    requires CandidatesOk(w) && ValidVersion(v) && tag in w.tags && IsRcTag(v, tag)
    ensures CandidateOk(w, v, tag)
  {
    hide ValidVersion, IsRcTag, CandidateOk;
  }

  lemma InvGivesOrder(w: World, v: Version)
    requires CandidatesOk(w) && ValidVersion(v)
    ensures CandidatesInOrder(w, v)
  {
    hide ValidVersion, IsRcTag, RcNumber, RcTag, NextRc, IsAncestor, BranchName, CandidatesOk;
    var k := NextRc(v, w.tags);
    forall tag ensures tag in w.tags && IsRcTag(v, tag) <==> exists i: nat :: i < k && tag == RcTag(v, i) {
      CandidateNumbers(w, v, tag);
    }
    forall i: nat, j: nat | i <= j < k
      ensures RcTag(v, i) in w.tags && RcTag(v, j) in w.tags && IsAncestor(w.tags[RcTag(v, i)], w.tags[RcTag(v, j)])
    {
      EarlierCandidates(w, v, i);
      EarlierCandidates(w, v, j);
      RcTagIsRc(v, j);
      CandidateAt(w, v, RcTag(v, j));
    }
    if k > 0 { EarlierCandidates(w, v, k - 1); }
  }

  /** Safety of every run: between any two moments of it branch heads move only
      to descendants and tags stay, and at every moment candidates are numbered
      0, 1, 2, ... along the branch and a first release is one of them. */
  lemma RunsAreSafe(w: World, earlier: seq<Command>, later: seq<Command>, v: Version, merges: Merges)
    requires Initial(w) && AllLegal(earlier, merges) && AllLegal(later, merges) && ValidVersion(v)
    ensures Grows(Run(w, earlier), Run(w, earlier + later))
    ensures CandidatesInOrder(Run(w, earlier), v)
    ensures VersionText(v) in Run(w, earlier).tags ==> FinalOk(Run(w, earlier), v)
  {
    hide Grows, Initial, Legal, ValidVersion, CandidatesInOrder, FinalOk, Run, VersionText, IssuesOk, CandidatesOk;
    InitialOk(w, merges);
    RunKeepsInvariant(w, earlier, merges);
    RunKeepsInvariant(Run(w, earlier), later, merges);
    RunConcat(w, earlier, later);
    InvGivesOrder(Run(w, earlier), v);
  }

  /** What a tag that create-rc adds stands for. */
  ghost predicate NewCandidateOk(before: World, after: World, issue: nat, tag: string, merges: Merges)
    requires tag in after.tags
  {
    && issue in before.issues && VersionInTitle(before.issues[issue].title).Some?
    && var v := VersionInTitle(before.issues[issue].title).value;
    && tag == RcTag(v, NextRc(v, before.tags))
    && BranchName(v) in before.branches && after.tags[tag] == before.branches[BranchName(v)]
    && forall t :: t in Backports(before.issues[issue].body) ==> Included(t, after.tags[tag], merges)
  }

  /** Ignored, or done and part of the commit's history. */
  ghost predicate Included(t: Task, c: Commit, merges: Merges) {
    if t.checked then IsPrRef(t.name) && PrNumber(t.name) in merges && HasPick(c, merges[PrNumber(t.name)])
    else Status(t) == "ignore"
  }

  /** In every run, a candidate holds at tagging time every listed backport that
      is not ignored. */
  lemma CandidatesHoldBackports(w: World, cs: seq<Command>, issue: nat, env: Env, tag: string, merges: Merges)
    requires Initial(w) && AllLegal(cs, merges) && EnvConsistent(env, merges)
    requires tag !in Run(w, cs).tags && tag in CreateRc(Run(w, cs), issue, env).0.tags
    ensures NewCandidateOk(ProcessBackports(Run(w, cs), issue, [], env, false).0, CreateRc(Run(w, cs), issue, env).0,
            issue, tag, merges)
  {
    hide Initial, Legal, Run, EnvConsistent, ProcessBackports, CreateRc, Inv, VersionInTitle, RcTag, NextRc,
         BranchName, HasPick, IsPrRef, PrNumber, Backports;
    InitialOk(w, merges);
    RunKeepsInvariant(w, cs, merges);
    NewCandidateHoldsBackports(Run(w, cs), issue, env, merges, tag);
  }

  /** In every run, a version that promote tags is tagged at the branch head, which
      holds every backport then marked done, and for a first release is the highest
      candidate. */
  lemma PromotionsHoldBackports(w: World, cs: seq<Command>, version: Option<Version>, issue: Option<nat>,
                                saveFails: bool,
                                v: Version, merges: Merges)
    requires Initial(w) && AllLegal(cs, merges) && (version.Some? ==> ValidVersion(version.value))
    requires PromotedVersion(Run(w, cs), version, issue) == Some(v)
    requires Promote(Run(w, cs), version, issue, saveFails, false).0.tags != Run(w, cs).tags
    ensures BranchName(v) in Run(w, cs).branches
    ensures var now := Run(w, cs);
            var head := now.branches[BranchName(v)];
            && Promote(now, version, issue, saveFails, false).0.tags == now.tags[VersionText(v) := head]
            && HoldsAllOf(now, BranchName(v), head, merges)
            && (IsFirstRelease(v) ==> IsHighestCandidate(now.tags, v, head))
  {
    hide Initial, Legal, Run, Promote, Inv, HoldsAllOf, IsHighestCandidate, IsFirstRelease, BranchName, VersionText,
         PromotedVersion, ValidVersion;
    InitialOk(w, merges);
    RunKeepsInvariant(w, cs, merges);
    PromotedIsHead(Run(w, cs), version, issue, saveFails, v, merges);
  }
}
