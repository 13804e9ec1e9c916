/** The release commands as functions from the remote's state to its next state
    and the exit code. What GitHub, the local clone and each cherry-pick answer
    is an argument. */
module ReleaseSteps {
  import opened Text
  import opened Decimal
  import opened Sorting
  import opened Checklist
  import opened IssueBody
  import opened GitGraph

  // ------------------------------------------------------------------ versions

  datatype Version = Version(major: string, minor: string, patch: string)

  /** `X.Y.Z`, or `X.Y.ZrcN` as the command line also accepts. */
  predicate ValidVersion(v: Version) {
    && IsNumeral(v.major) && IsNumeral(v.minor)
    && v.patch != "" && forall i :: 0 <= i < |v.patch| ==> IsDigit(v.patch[i]) || v.patch[i] == 'r' || v.patch[i] == 'c'
  }

  function VersionText(v: Version): string {
    v.major + "." + v.minor + "." + v.patch
  }

  function BranchName(v: Version): string {
    "release/" + v.major + "." + v.minor
  }

  /** `version.endswith(".0")`. */
  predicate IsFirstRelease(v: Version) {
    EndsWith(VersionText(v), ".0")
  }

  /** `(\d+\.\d+\.\d+)` at the start of `s`. */
  function VersionAt(s: string): Option<Version> {
    var i := DigitRun(s);
    if i == 0 || i == |s| || s[i] != '.' then None else
    var t := s[i + 1..];
    var j := DigitRun(t);
    if j == 0 || j == |t| || t[j] != '.' then None else
    var u := t[j + 1..];
    var k := DigitRun(u);
    if k == 0 then None else Some(Version(s[..i], t[..j], u[..k]))
  }

  /** `RELEASE_TITLE_RE.search(title)`. */
  function VersionInTitle(title: string): Option<Version> {
    if |title| < 8 then None
    else if Lower(title[..8]) == "release " && VersionAt(title[8..]).Some? then VersionAt(title[8..])
    else VersionInTitle(title[1..])
  }

  // ------------------------------------------------------------------- RC tags

  function RcTag(v: Version, n: nat): string {
    VersionText(v) + "-rc" + FromNat(n)
  }

  /** `rf"^{re.escape(version)}-rc\d+$"`. */
  predicate IsRcTag(v: Version, tag: string) {
    var prefix := VersionText(v) + "-rc";
    prefix <= tag && IsNumeral(tag[|prefix|..])
  }

  function RcNumber(v: Version, tag: string): nat
    requires IsRcTag(v, tag)
  {
    ToNat(tag[|VersionText(v)| + 3..])
  }

  /** `get_latest_rc_tag` over the tags as `ls-remote` lists them: a stable sort
      by candidate number keeps the last of the highest. */
  function LatestOf(v: Version, listed: seq<string>): (r: Option<string>)
    ensures r.Some? ==> r.value in listed && IsRcTag(v, r.value)
  {
    if listed == [] then None
    else
      var tag := listed[|listed| - 1];
      var best := LatestOf(v, listed[..|listed| - 1]);
      if IsRcTag(v, tag) && (best.None? || RcNumber(v, best.value) <= RcNumber(v, tag)) then Some(tag)
      else best
  }

  function LatestRcTag(v: Version, tags: map<string, Commit>): (r: Option<string>)
    ensures r.Some? ==> r.value in tags && IsRcTag(v, r.value)
  {
    LatestOf(v, Sorted(tags.Keys))
  }

  /** The number the next candidate gets. */
  function NextRc(v: Version, tags: map<string, Commit>): nat {
    match LatestRcTag(v, tags)
    case None => 0
    case Some(tag) => RcNumber(v, tag) + 1
  }

  // -------------------------------------------------------------------- worlds

  datatype Issue = Issue(title: string, body: Body)

  datatype World = World(branches: map<string, Commit>, tags: map<string, Commit>, issues: map<nat, Issue>)

  function WithBody(w: World, issue: nat, body: Body): World
    requires issue in w.issues
  {
    w.(issues := w.issues[issue := w.issues[issue].(body := body)])
  }

  datatype PrState = Open | Draft | Closed | Merged(oid: string) | MergedWithoutCommit | UnknownState | LookupFailed

  /** What one cherry-pick comes to. A failure after `cherry-pick` succeeded
      leaves its commit on the local branch, since there is nothing to abort. */
  datatype PickOutcome =
    | Conflict
    | FailedBeforePush(sha: string)
    | FailedAfterPush(sha: string)
    | Pushed(sha: string, short: string)

  /** `chronology` is the order of `git log --reverse`; `saveFails` holds the PR
      references whose issue update raises. The other issue updates that can raise
      are the one that adds tasks and the one that closes the command's own task. */
  datatype Env = Env(
    objects: map<string, Commit>, prs: map<nat, PrState>, picks: map<string, PickOutcome>,
    saveFails: set<string>, addingFails: bool, closingFails: bool, dirty: bool, chronology: seq<string>)

  // ----------------------------------------------------- create-release-branch

  function Short(sha: string): string {
    if |sha| <= 8 then sha else sha[..8]
  }

  function TaskStatus(t: Option<Task>): Option<string> {
    match t case None => None case Some(task) => Get(task.metadata, "status")
  }

  function TaskCommit(t: Option<Task>): string {
    match t
    case None => ""
    case Some(task) => match Get(task.metadata, "commit") case None => "" case Some(c) => c
  }

  /** A metadata update of a task; a missing task is an exception, and so is an
      issue that cannot be saved. */
  function Recorded(w: World, issue: nat, task: string, checked: bool, md: Metadata, saveFails: bool): (World, int)
    requires issue in w.issues
  {
    match Update(w.issues[issue].body, task, checked, md)
    case None => (w, 1)
    case Some(body) => if saveFails then (w, 1) else (WithBody(w, issue, body), 0)
  }

  /** Pushing `commit` as the branch: fast-forward or new branch only. */
  function PushRelease(w: World, branch: string, commit: string, env: Env): Option<World> {
    if branch in w.branches && w.branches[branch].sha == commit then Some(w)
    else if commit !in env.objects then None
    else if branch in w.branches && !IsAncestor(w.branches[branch], env.objects[commit]) then None
    else Some(w.(branches := w.branches[branch := env.objects[commit]]))
  }

  function CreateReleaseBranch(w: World, issue: nat, env: Env): (World, int) {
    if issue !in w.issues then (w, 1) else
    var lines := SplitLines(w.issues[issue].body);
    var prepare := LastOfKind(lines, Preparing);
    var create := LastOfKind(lines, Branching);
    if TaskStatus(prepare) != Some("done") || TaskCommit(prepare) == "" then (w, 1)
    else if create.Some? && create.value.checked then (w, 0)
    else match VersionInTitle(w.issues[issue].title)
      case None => (w, 1)
      case Some(v) =>
        var commit := TaskCommit(prepare);
        match PushRelease(w, BranchName(v), commit, env)
        case None => (w, 1)
        case Some(pushed) =>
          Recorded(pushed, issue, "Create Release branch", true,
                   [Pair("status", "done"), Pair("branch_url", BranchUrl(v)), Pair("commit", Short(commit))],
                       env.closingFails)
  }

  function BranchUrl(v: Version): string {
    "https://github.com/bazel-contrib/rules_python/tree/" + BranchName(v)
  }

  // --------------------------------------------------------- process-backports

  datatype AddRef = PrNum(n: nat) | Invalid(ref: string)

  function AddedItem(r: AddRef): NewItem {
    match r
    case PrNum(n) => NewItem("#" + FromNat(n), [])
    case Invalid(ref) => NewItem(ref, [Pair("status", "error-invalid-pr")])
  }

  function AddSyncTasks(body: Body, refs: seq<AddRef>): Option<Body> {
    if refs == [] then Some(body)
    else match AddSyncTasks(body, refs[..|refs| - 1])
      case None => None
      case Some(b) =>
        match refs[|refs| - 1]
        case Invalid(_) => Some(b)
        case PrNum(n) => AddSyncTask(b, n)
  }

  function RcNumbers(lines: seq<string>): set<nat> {
    set l | l in lines && LineKind(l).Rc? :: LineKind(l).n
  }

  /** `max(rc_tags) + 1`, or 0 without RC tasks. */
  function NextRcTask(lines: seq<string>): nat {
    if lines == [] then 0
    else
      var before := NextRcTask(lines[..|lines| - 1]);
      match LineKind(lines[|lines| - 1])
      case Rc(n) => if before < n + 1 then n + 1 else before
      case _ => before
  }

  predicate IsPendingTask(t: Option<Task>) {
    t.Some? && !t.value.checked && Get(t.value.metadata, "status") != Some("done")
  }

  predicate HasPendingRc(lines: seq<string>) {
    exists n :: n in RcNumbers(lines) && IsPendingTask(LastOfKind(lines, Rc(n)))
  }

  /** The `--add` part: None is a ValueError. */
  function AddAll(body: Body, refs: seq<AddRef>): Option<Body> {
    match AddBackports(body, seq(|refs|, i requires 0 <= i < |refs| => AddedItem(refs[i])))
    case None => None
    case Some(added) =>
      match AddSyncTasks(added, refs)
      case None => None
      case Some(synced) =>
        if HasPendingRc(SplitLines(synced)) then Some(synced)
        else AddRcTask(synced, NextRcTask(SplitLines(synced)))
  }

  /** Unchecked and not in error: an ignored backport is pending too. */
  predicate IsPending(t: Task) {
    !t.checked && !StartsWith(Status(t), "error-")
  }

  function Pending(items: seq<Task>): seq<Task> {
    if items == [] then []
    else if IsPending(items[0]) then [items[0]] + Pending(items[1..])
    else Pending(items[1..])
  }

  datatype Resolution = ToPick(sha: string) | Waiting | Failed(status: string)

  /** `get_merge_commits_for_prs` and the case split on its answer: a commit that
      the checklist line itself names is used when the PR gives none. */
  function Resolve(t: Task, env: Env): Resolution
    requires IsPrRef(t.name)
  {
    var n := PrNumber(t.name);
    if n in env.prs && env.prs[n].Merged? && env.prs[n].oid != "" then ToPick(env.prs[n].oid)
    else if TaskCommit(Some(t)) != "" && !(n in env.prs && env.prs[n].Merged?) then ToPick(TaskCommit(Some(t)))
    else if n !in env.prs then Failed("error-not-found")
    else if env.prs[n].Open? || env.prs[n].Draft? then Waiting
    else Failed(FailureStatus(env.prs[n]))
  }

  function FailureStatus(state: PrState): string {
    match state
    case Closed => "error-closed-pr"
    case MergedWithoutCommit => "error-no-merge-commit"
    case LookupFailed => "error-resolution-failed"
    case Merged(_) => "resolved"
    case _ => "error-unknown"
  }

  /** The issue text the tool holds, the one stored, and the references failed so far. */
  datatype Notes = Notes(body: Body, saved: Body, failed: nat)

  /** An update whose failure, of either kind, is only logged. */
  function Noted(notes: Notes, ref: string, checked: bool, md: Metadata, env: Env): Notes {
    match Update(notes.body, ref, checked, md)
    case None => notes
    case Some(body) => notes.(body := body, saved := if ref in env.saveFails then notes.saved else body)
  }

  datatype Triage = Triage(items: map<string, Task>, notes: Notes)

  /** `_process_pr_commit_infos`. */
  function TriageOne(acc: Triage, t: Task, env: Env, dryRun: bool): Triage
    requires IsPrRef(t.name)
  {
    match Resolve(t, env)
    case ToPick(sha) => acc.(items := acc.items[sha := t])
    case Waiting => acc
    case Failed(status) =>
      var notes := acc.notes.(failed := acc.notes.failed + 1);
      acc.(notes := if dryRun then notes else Noted(notes, t.name, false, [Pair("status", status)], env))
  }

  ghost predicate AllPrRefs(items: seq<Task>) {
    forall i :: 0 <= i < |items| ==> IsPrRef(items[i].name)
  }

  function TriageAll(acc: Triage, items: seq<Task>, env: Env, dryRun: bool): Triage
    requires AllPrRefs(items)
    decreases |items|
  {
    if items == [] then acc
    else
      assert AllPrRefs(items[1..]);
      TriageAll(TriageOne(acc, items[0], env, dryRun), items[1..], env, dryRun)
  }

  /** `sort_commits_chronologically`. */
  function InOrder(chronology: seq<string>, shas: set<string>): (r: seq<string>)
    ensures forall s :: s in r ==> s in shas
  {
    if chronology == [] then []
    else
      var rest := InOrder(chronology[1..], shas);
      if chronology[0] in shas then [chronology[0]] + rest else rest
  }

  /** The local and the remote head of the release branch during the picks. */
  datatype Picking = Picking(local: Commit, remote: Commit, notes: Notes)

  function Failing(p: Picking, ref: string, env: Env, dryRun: bool): Picking {
    var notes := p.notes.(failed := p.notes.failed + 1);
    p.(notes := if dryRun then notes else Noted(notes, ref, false, [Pair("status", "error-merge-conflict")], env))
  }

  /** One turn of the loop of `_cherry_pick_and_update_prs`. */
  function PickOne(p: Picking, sha: string, ref: string, rc: string, env: Env, dryRun: bool): Picking {
    var outcome := if sha in env.picks then env.picks[sha] else Conflict;
    match outcome
    case Conflict => Failing(p, ref, env, dryRun)
    case FailedBeforePush(s) => Failing(p.(local := Commit(s, [p.local], Some(sha))), ref, env, dryRun)
    case FailedAfterPush(s) =>
      var c := Commit(s, [p.local], Some(sha));
      if dryRun then p.(local := c) else Failing(p.(local := c, remote := c), ref, env, dryRun)
    case Pushed(s, short) =>
      var c := Commit(s, [p.local], Some(sha));
      if dryRun then p.(local := c)
      else p.(local := c, remote := c,
              notes := Noted(p.notes, ref, true, [Pair("status", "done"), Pair("rc", rc), Pair("commit", short)], env))
  }

  function PickAll(p: Picking, shas: seq<string>, items: map<string, Task>, rc: string, env: Env, dryRun: bool): Picking
    requires forall s :: s in shas ==> s in items
    decreases |shas|
  {
    if shas == [] then p
    else PickAll(PickOne(p, shas[0], items[shas[0]].name, rc, env, dryRun), shas[1..], items, rc, env, dryRun)
  }

  function ExitCode(failed: nat): int {
    if failed > 0 then 1 else 0
  }

  /** `git log` fails on a commit it does not know. */
  predicate AllKnown(shas: set<string>, chronology: seq<string>) {
    forall s :: s in shas ==> s in chronology
  }

  /** From the parsed backports on. `body` is the text in hand. */
  function RunPicks(w: World, issue: nat, body: Body, env: Env, dryRun: bool): (World, int)
    requires issue in w.issues
  {
    var pending := Pending(Backports(body));
    if pending == [] then (w, 0)
    else match VersionInTitle(w.issues[issue].title)
      case None => (w, 1)
      case Some(v) =>
        PendingArePrRefs(body);
        var start := Triage(map[], Notes(body, w.issues[issue].body, 0));
        var triaged := TriageAll(start, pending, env, dryRun);
        var noted := WithBody(w, issue, triaged.notes.saved);
        if triaged.items == map[] then (noted, ExitCode(triaged.notes.failed))
        else if env.dirty || !AllKnown(triaged.items.Keys, env.chronology) || BranchName(v) !in w.branches
            then (noted, 1)
        else
          var head := w.branches[BranchName(v)];
          var shas := InOrder(env.chronology, triaged.items.Keys);
          var done := PickAll(Picking(head, head, triaged.notes), shas, triaged.items,
                              "rc" + FromNat(NextRc(v, w.tags)), env, dryRun);
          var pushed := w.(branches := w.branches[BranchName(v) := done.remote]);
          (WithBody(pushed, issue, done.notes.saved), ExitCode(done.notes.failed))
  }

  /** `ProcessBackports._run_internal`; `add` is empty when `--add` is absent. */
  function ProcessBackports(w: World, issue: nat, add: seq<AddRef>, env: Env, dryRun: bool): (World, int) {
    if issue !in w.issues then (w, 1)
    else if add == [] then RunPicks(w, issue, w.issues[issue].body, env, dryRun)
    else match AddAll(w.issues[issue].body, add)
      case None => (w, 1)
      case Some(body) =>
        if env.addingFails && !dryRun then (w, 1)
        else RunPicks(if dryRun then w else WithBody(w, issue, body), issue, body, env, dryRun)
  }

  lemma {:induction false} BackportsArePrRefs(lines: seq<string>)
    ensures AllPrRefs(BackportsIn(lines))
  {
    hide IsPrRef, ParseLine;
    if lines != [] { BackportsArePrRefs(lines[..|lines| - 1]); }
  }

  lemma {:induction false} PendingKeepsRefs(items: seq<Task>)
    requires AllPrRefs(items)
    ensures AllPrRefs(Pending(items))
    ensures forall t :: t in Pending(items) ==> t in items && IsPending(t)
  {
    hide IsPrRef, IsPending;
    if items != [] {
      assert AllPrRefs(items[1..]);
      PendingKeepsRefs(items[1..]);
    }
  }

  lemma PendingArePrRefs(body: Body)
    ensures AllPrRefs(Pending(Backports(body)))
  {
    hide IsPrRef, BackportsIn;
    var s := Section(body);
    if s.Some? { BackportsArePrRefs(body[s.value.0..s.value.1]); }
    PendingKeepsRefs(Backports(body));
  }

  // ----------------------------------------------------------------- create-rc

  /** What lets a candidate be tagged: done when checked, ignored otherwise. */
  predicate Settled(t: Task) {
    if t.checked then Status(t) == "done" else Status(t) == "ignore"
  }

  predicate AllSettled(items: seq<Task>) {
    forall i :: 0 <= i < |items| ==> Settled(items[i])
  }

  predicate AlreadyTagged(t: Task) {
    t.checked || Get(t.metadata, "status") == Some("done")
  }

  /** Tagging once every check has passed. `body` already lists the task. */
  function TagRc(w: World, issue: nat, v: Version, n: nat, saveFails: bool): (World, int)
    requires issue in w.issues
  {
    if BranchName(v) !in w.branches then (w, 1)
    else
      var head := w.branches[BranchName(v)];
      Recorded(w.(tags := w.tags[RcTag(v, n) := head]), issue, RcTaskName(n), true,
               [Pair("status", "done"), Pair("tag", RcTag(v, n)), Pair("commit", Short(head.sha))], saveFails)
  }

  /** From the re-read issue on. */
  function GateAndTag(w: World, issue: nat, env: Env): (World, int)
    requires issue in w.issues
  {
    var body := w.issues[issue].body;
    var lines := SplitLines(body);
    if TaskStatus(LastOfKind(lines, Preparing)) != Some("done")
       || TaskStatus(LastOfKind(lines, Branching)) != Some("done") then (w, 1)
    else if !AllSettled(Backports(body)) then (w, 1)
    else match VersionInTitle(w.issues[issue].title)
      case None => (w, 1)
      case Some(v) =>
        var n := NextRc(v, w.tags);
        match LastOfKind(lines, Rc(n))
        case Some(t) => if AlreadyTagged(t) then (w, 1) else TagRc(w, issue, v, n, env.closingFails)
        case None =>
          match AddRcTask(body, n)
          case None => (w, 1)
          case Some(added) => if env.addingFails then (w, 1)
              else TagRc(WithBody(w, issue, added), issue, v, n, env.closingFails)
  }

  /** `CreateRc._run_internal`: backports first, then the gate. */
  function CreateRc(w: World, issue: nat, env: Env): (World, int) {
    var (processed, code) := ProcessBackports(w, issue, [], env, false);
    if code != 0 || issue !in processed.issues then (processed, if code != 0 then code else 1)
    else GateAndTag(processed, issue, env)
  }

  // ------------------------------------------------------------------- promote

  /** The version asked for, or the one in the issue's title. */
  function PromotedVersion(w: World, version: Option<Version>, issue: Option<nat>): Option<Version> {
    if version.Some? then version
    else if issue.Some? && issue.value in w.issues then VersionInTitle(w.issues[issue.value].title)
    else None
  }

  /** `Promote.run`; `saveFails` says that its issue update raises. */
  function Promote(w: World, version: Option<Version>, issue: Option<nat>, saveFails: bool, dryRun: bool)
    : (World, int)
  {
    match PromotedVersion(w, version, issue)
    case None => (w, 1)
    case Some(v) =>
      if VersionText(v) in w.tags || issue.None? || issue.value !in w.issues then (w, 1)
      else
        var latest := LatestRcTag(v, w.tags);
        if IsFirstRelease(v) && latest.None? then (w, 1)
        else if BranchName(v) !in w.branches then (w, 1)
        else
          var head := w.branches[BranchName(v)];
          if IsFirstRelease(v) && w.tags[latest.value] != head then
            var rc := w.tags[latest.value];
            var (noted, _) := Recorded(w, issue.value, "Tag Final", false,
              [Pair("status", "error-rc-tag-not-branch-head"), Pair("rc", latest.value),
               Pair("branch_commit", Short(head.sha)), Pair("tag_commit", Short(rc.sha))], saveFails);
            (if dryRun then w else noted, 1)
          else match Update(w.issues[issue.value].body, "Tag Final", true,
              [Pair("status", "done"), Pair("tag", VersionText(v)), Pair("commit", Short(head.sha))])
            case None => (w, 1)
            case Some(body) =>
              var tagged := w.(tags := w.tags[VersionText(v) := head]);
              if dryRun then (w, 0) else if saveFails then (tagged, 1) else (WithBody(tagged, issue.value, body), 0)
  }
}
