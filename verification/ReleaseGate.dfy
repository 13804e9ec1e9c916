/** Exactly when create-rc and create-release-branch act, what they exit with and
    what they leave in the tracking issue. */
module ReleaseGate {
  import opened Text
  import opened Decimal
  import opened Checklist
  import opened IssueBody
  import opened IssueInserts
  import opened GitGraph
  import opened ReleaseNames
  import opened ReleaseSteps
  import opened ReleaseNotes

  // ------------------------------------------------------------- the task of a kind

  /** `line` is the last one that lists a task of that kind. */
  ghost predicate IsLastOf(lines: seq<string>, i: nat, kind: Kind) {
    i < |lines| && LineKind(lines[i]) == kind && forall j :: i < j < |lines| ==> LineKind(lines[j]) != kind
  }

  ghost predicate NoneOf(lines: seq<string>, kind: Kind) {
    forall j :: 0 <= j < |lines| ==> LineKind(lines[j]) != kind
  }

  lemma {:induction false} LastOfKindIs(lines: seq<string>, kind: Kind)
    requires kind != Other
    ensures match LastOfKind(lines, kind)
            case None => NoneOf(lines, kind)
            case Some(t) => exists i: nat :: IsLastOf(lines, i, kind) && i < |lines| && ParseLine(lines[i]) == Some(t)
  {
    hide ParseLine, KindOf;
    if lines != [] {
      var (front, n) := (lines[..|lines| - 1], |lines| - 1);
      if LineKind(lines[n]) == kind {
        assert IsLastOf(lines, n, kind);
      } else {
        LastOfKindIs(front, kind);
        if LastOfKind(front, kind).Some? {
          var i: nat :| IsLastOf(front, i, kind) && ParseLine(front[i]) == LastOfKind(front, kind);
          assert IsLastOf(lines, i, kind);
        }
      }
    }
  }

  /** The last line of that kind notes the status. */
  ghost predicate HasStatus(lines: seq<string>, kind: Kind, status: string) {
    exists i: nat, t :: IsLastOf(lines, i, kind) && ParseLine(lines[i]) == Some(t)
                        && Get(t.metadata, "status") == Some(status)
  }

  lemma StatusIs(lines: seq<string>, kind: Kind, status: string)
    requires kind != Other
    ensures TaskStatus(LastOfKind(lines, kind)) == Some(status) <==> HasStatus(lines, kind, status)
  {
    LastOfKindIs(lines, kind);
    hide ParseLine, LineKind, Get, LastOfKind;
    var last := LastOfKind(lines, kind);
    if HasStatus(lines, kind, status) {
      var i: nat, t :| IsLastOf(lines, i, kind) && ParseLine(lines[i]) == Some(t)
                       && Get(t.metadata, "status") == Some(status);
      if last.Some? {
        var j: nat :| IsLastOf(lines, j, kind) && ParseLine(lines[j]) == last;
        assert i == j;
      }
    }
  }

  // ------------------------------------------------------------------- create-rc

  /** Checked and done, or unchecked and ignored. */
  ghost predicate AllDealtWith(items: seq<Task>) {
    forall t :: t in items ==> Get(t.metadata, "status") == Some(if t.checked then "done" else "ignore")
  }

  predicate IsOpenTask(t: Task) {
    !t.checked && Get(t.metadata, "status") != Some("done")
  }

  ghost predicate HasOpenTask(lines: seq<string>, n: nat) {
    exists i: nat, t :: IsLastOf(lines, i, Rc(n)) && i < |lines| && ParseLine(lines[i]) == Some(t) && IsOpenTask(t)
  }

  /** The candidate's task is not listed and can be added, or is listed and still open. */
  ghost predicate TaskIsOpen(body: Body, n: nat, addingFails: bool) {
    var lines := SplitLines(body);
    if NoneOf(lines, Rc(n)) then !addingFails && exists p: nat :: RcPlace(lines, p)
    else HasOpenTask(lines, n)
  }

  /** Every check of create-rc before it looks up the branch. */
  ghost predicate PassesGate(w: World, issue: nat, v: Version, env: Env) {
    && issue in w.issues && VersionInTitle(w.issues[issue].title) == Some(v)
    && var body := w.issues[issue].body;
    && HasStatus(SplitLines(body), Preparing, "done") && HasStatus(SplitLines(body), Branching, "done")
    && AllDealtWith(Backports(body)) && TaskIsOpen(body, NextRc(v, w.tags), env.addingFails)
  }

  /** Whether the body lists the candidate's task under its own name. */
  ghost predicate CanClose(body: Body, n: nat) {
    exists l :: l in SplitLines(body) && NamesTask(l, Lower("Tag RC" + FromNat(n)))
  }

  /** The issue with the candidate's task: as it is, or with the task added. */
  ghost predicate IsOpened(body: Body, listing: Body, n: nat) {
    if NoneOf(SplitLines(body), Rc(n)) then
      exists p: nat :: RcPlace(SplitLines(body), p) && IsGrown(body, listing, p, RcLine(n))
    else listing == body
  }

  function ClosedTask(v: Version, n: nat, head: Commit): Edit {
    Edit("Tag RC" + FromNat(n), true,
         [Pair("status", "done"), Pair("tag", VersionText(v) + "-rc" + FromNat(n)), Pair("commit", Short(head.sha))])
  }

  lemma DealtWithIs(items: seq<Task>)
    ensures AllSettled(items) <==> AllDealtWith(items)
  {
    assert "pending" != "done" && "pending" != "ignore"
           by { assert "pending"[0] == 'p' && "done"[0] == 'd' && "ignore"[0] == 'i'; }
    hide Get;
  }

  lemma HasOpenTaskIs(lines: seq<string>, n: nat)
    ensures match LastOfKind(lines, Rc(n))
            case None => NoneOf(lines, Rc(n))
            case Some(t) => !NoneOf(lines, Rc(n)) && (HasOpenTask(lines, n) <==> !AlreadyTagged(t))
  {
    LastOfKindIs(lines, Rc(n));
    var last := LastOfKind(lines, Rc(n));
    if last.Some? {
      OpenTaskIs(last.value);
      hide ParseLine, LineKind, LastOfKind, IsLastOf, NoneOf, IsOpenTask, AlreadyTagged;
      var j: nat :| IsLastOf(lines, j, Rc(n)) && j < |lines| && ParseLine(lines[j]) == last;
      OneLast(lines, Rc(n), j, j);
      if HasOpenTask(lines, n) {
        var i: nat, t :| IsLastOf(lines, i, Rc(n)) && i < |lines| && ParseLine(lines[i]) == Some(t) && IsOpenTask(t);
        OneLast(lines, Rc(n), i, j);
      }
    }
  }

  lemma OpenTaskIs(t: Task)
    ensures IsOpenTask(t) <==> !AlreadyTagged(t)
  {
    hide Get;
  }

  lemma OneLast(lines: seq<string>, kind: Kind, i: nat, j: nat)
    requires IsLastOf(lines, i, kind) && IsLastOf(lines, j, kind)
    ensures i == j && i < |lines| && !NoneOf(lines, kind)
  {
    hide LineKind;
  }

  lemma OpenIs(body: Body, n: nat, addingFails: bool)
    ensures TaskIsOpen(body, n, addingFails) <==>
              match LastOfKind(SplitLines(body), Rc(n))
              case None => AddRcTask(body, n).Some? && !addingFails
              case Some(t) => !AlreadyTagged(t)
    ensures LastOfKind(SplitLines(body), Rc(n)).None? <==> NoneOf(SplitLines(body), Rc(n))
  {
    HasOpenTaskIs(SplitLines(body), n);
    AddRcTaskInserts(body, n, 0);
    hide AlreadyTagged, NoneOf, HasOpenTask, LastOfKind, AddRcTask, RcPlace, IsGrown, IsNewTask, KindOf;
  }

  lemma OpenedIs(body: Body, n: nat)
    requires NoneOf(SplitLines(body), Rc(n)) && AddRcTask(body, n).Some?
    ensures IsOpened(body, AddRcTask(body, n).value, n)
    ensures HasTask(SplitLines(AddRcTask(body, n).value), RcTaskName(n))
  {
    AddedRcTaskFound(body, n);
    AddRcTaskInserts(body, n, 0);
    hide AddRcTask, NoneOf, RcPlace, IsGrown, HasTask, RcTaskName, IsNewTask, KindOf;
    var p: nat :| RcPlace(SplitLines(body), p);
    AddRcTaskInserts(body, n, p);
  }

  lemma CanCloseIs(body: Body, n: nat)
    ensures CanClose(body, n) <==> HasTask(SplitLines(body), RcTaskName(n))
  {
    ListedIff(SplitLines(body), RcTaskName(n));
    hide HasTask, NamesTask, Lower;
  }

  /** Tagging and closing the task of a body that lists it. */
  lemma TagRcIs(w: World, issue: nat, v: Version, n: nat, saveFails: bool)
    requires issue in w.issues && BranchName(v) in w.branches
    ensures var (w', code) := TagRc(w, issue, v, n, saveFails);
            var (body, head) := (w.issues[issue].body, w.branches[BranchName(v)]);
            && w' == WithBody(w.(tags := w.tags[RcTag(v, n) := head]), issue, w'.issues[issue].body)
            && (code == 0 || code == 1)
            && (code == 0 <==> HasTask(SplitLines(body), RcTaskName(n)) && !saveFails)
            && (code == 1 ==> w'.issues[issue].body == body)
            && (code == 0 ==> var e := ClosedTask(v, n, head);
                  Update(body, e.ref, e.checked, e.metadata) == Some(w'.issues[issue].body))
  {
    hide Named, UpdatedLines, Short, BranchName, Joined;
    assert w.issues[issue := w.issues[issue]] == w.issues;
  }

  /** What create-rc's gate comes to, by the checks alone. */
  lemma GateIs(w: World, issue: nat, v: Version, env: Env)
    requires issue in w.issues && VersionInTitle(w.issues[issue].title) == Some(v)
    ensures var (n, body) := (NextRc(v, w.tags), w.issues[issue].body);
            GateAndTag(w, issue, env) ==
            if !PassesGate(w, issue, v, env) then (w, 1)
            else TagRc(if NoneOf(SplitLines(body), Rc(n)) && AddRcTask(body, n).Some?
                       then WithBody(w, issue, AddRcTask(body, n).value) else w, issue, v, n, env.closingFails)
  {
    var body := w.issues[issue].body;
    var lines := SplitLines(body);
    StatusIs(lines, Preparing, "done");
    StatusIs(lines, Branching, "done");
    DealtWithIs(Backports(body));
    OpenIs(body, NextRc(v, w.tags), env.addingFails);
    hide AllSettled, AllDealtWith, HasStatus, TaskIsOpen, NoneOf, LastOfKind, AddRcTask, TaskStatus, AlreadyTagged,
         VersionInTitle, NextRc, Backports, TagRc;
  }

  lemma VersionIsShort(v: Version, n: nat)
    requires ValidVersion(v)
    ensures IsShort(RcTag(v, n)) && RcTag(v, n) == VersionText(v) + "-rc" + FromNat(n)
  {
    var (a, b, c, d) := (v.major, v.minor, v.patch, FromNat(n));
    hide IsNumeral;
    NoSpace(a);
    NoSpace(b);
    NoSpace(d);
    assert forall i :: 0 <= i < |c| ==> !IsSpace(c[i]);
    assert IsShort(a + "." + b + "." + c);
    assert forall i :: 0 <= i < 3 ==> !IsSpace("-rc"[i]);
  }

  lemma NoSpace(s: string)
    requires IsNumeral(s)
    ensures forall i :: 0 <= i < |s| ==> !IsSpace(s[i])
  {
  }

  lemma ClosedIsGood(v: Version, n: nat, head: Commit)
    requires ValidVersion(v) && IsShort(head.sha)
    ensures GoodEdit(ClosedTask(v, n, head))
  {
    VersionIsShort(v, n);
    RcNameIsGood(n);
    assert IsShort(Short(head.sha));
    assert GoodPair(Pair("status", "done"));
    assert GoodPair(Pair("tag", RcTag(v, n)));
    assert GoodPair(Pair("commit", Short(head.sha)));
    assert RcTaskName(n) == "Tag RC" + FromNat(n);
    hide GoodPair, IsShort, ValidVersion, RcTag, RcTaskName, Trimmed, Short, VersionText, KindOf, IsPrRef;
  }

  /** The issue that the gate leaves. */
  ghost predicate IssueAfterGate(body: Body, after: Body, v: Version, n: nat, head: Option<Commit>, closed: bool) {
    exists listing: Body :: IsOpened(body, listing, n)
      && if closed && head.Some? then IsEdited(listing, after, [ClosedTask(v, n, head.value)]) else after == listing
  }

  ghost predicate MayTag(w: World, issue: nat, v: Version, env: Env) {
    PassesGate(w, issue, v, env) && BranchName(v) in w.branches
  }

  lemma ListingIs(body: Body, n: nat, env: Env) returns (listing: Body)
    requires TaskIsOpen(body, n, env.addingFails)
    ensures IsOpened(body, listing, n)
    ensures listing == if NoneOf(SplitLines(body), Rc(n)) && AddRcTask(body, n).Some? then AddRcTask(body, n).value
                       else body
    ensures HasTask(SplitLines(listing), RcTaskName(n)) <==> NoneOf(SplitLines(body), Rc(n)) || CanClose(body, n)
  {
    OpenIs(body, n, env.addingFails);
    CanCloseIs(body, n);
    listing := body;
    hide TaskIsOpen, NoneOf, LastOfKind, AddRcTask, CanClose, HasTask, RcTaskName, AlreadyTagged;
    if NoneOf(SplitLines(body), Rc(n)) {
      OpenedIs(body, n);
      listing := AddRcTask(body, n).value;
    }
  }

  lemma ClosedBody(listing: Body, after: Body, v: Version, n: nat, head: Commit)
    requires ValidVersion(v) && IsShort(head.sha)
    requires var e := ClosedTask(v, n, head); Update(listing, e.ref, e.checked, e.metadata) == Some(after)
    ensures IsEdited(listing, after, [ClosedTask(v, n, head)])
  {
    ClosedIsGood(v, n, head);
    hide *;
    EditedOnce(listing, ClosedTask(v, n, head), after);
  }

  lemma SameBody(w: World, issue: nat)
    requires issue in w.issues
    ensures WithBody(w, issue, w.issues[issue].body) == w
  {
    assert w.issues[issue := w.issues[issue]] == w.issues;
  }

  /** Past the gate: the issue lists the task, and tagging follows. */
  lemma GatePassed(w: World, issue: nat, v: Version, env: Env) returns (listing: Body)
    requires PassesGate(w, issue, v, env)
    ensures var (n, body) := (NextRc(v, w.tags), w.issues[issue].body);
            && IsOpened(body, listing, n)
            && (HasTask(SplitLines(listing), RcTaskName(n)) <==> NoneOf(SplitLines(body), Rc(n)) || CanClose(body, n))
            && GateAndTag(w, issue, env) == TagRc(WithBody(w, issue, listing), issue, v, n, env.closingFails)
  {
    GateIs(w, issue, v, env);
    var body := w.issues[issue].body;
    SameBody(w, issue);
    hide WithBody, TaskIsOpen, NoneOf, AddRcTask, CanClose, HasTask, RcTaskName, VersionInTitle, NextRc, GateAndTag,
         TagRc,
         IsOpened, HasStatus, AllDealtWith, Backports;
    listing := ListingIs(body, NextRc(v, w.tags), env);
  }

  /** A candidate is tagged exactly when every check has passed and the branch is
      there, on the branch's head and under the next number; the exit code is 0
      exactly when its task can then be closed and saved as well. */
  lemma GateTagsIff(w: World, issue: nat, v: Version, env: Env)
    requires issue in w.issues && VersionInTitle(w.issues[issue].title) == Some(v)
    ensures var ((w', code), n, b) := (GateAndTag(w, issue, env), NextRc(v, w.tags), BranchName(v));
            && w'.branches == w.branches
            && w'.tags == (if MayTag(w, issue, v, env) then w.tags[VersionText(v) + "-rc" + FromNat(n) := w.branches[b]]
                           else w.tags)
            && (code == 0 <==>
                  MayTag(w, issue, v, env) && !env.closingFails
                  && (NoneOf(SplitLines(w.issues[issue].body), Rc(n)) || CanClose(w.issues[issue].body, n)))
  {
    GateIs(w, issue, v, env);
    hide NextRc, GateAndTag, TagRc, PassesGate, NoneOf, CanClose, HasTask, BranchName, VersionInTitle, AddRcTask,
         RcTaskName, VersionText;
    if PassesGate(w, issue, v, env) {
      var listing := GatePassed(w, issue, v, env);
      TagRcStep(WithBody(w, issue, listing), issue, v, NextRc(v, w.tags), env.closingFails);
    }
  }

  lemma TagRcStep(w: World, issue: nat, v: Version, n: nat, saveFails: bool)
    requires issue in w.issues
    ensures var ((w', code), b) := (TagRc(w, issue, v, n, saveFails), BranchName(v));
            && w'.branches == w.branches
            && w'.tags == (if b in w.branches then w.tags[VersionText(v) + "-rc" + FromNat(n) := w.branches[b]]
                           else w.tags)
            && (code == 0 <==>
                  b in w.branches && !saveFails && HasTask(SplitLines(w.issues[issue].body), RcTaskName(n)))
  {
    hide HasTask, BranchName, VersionText, RcTaskName;
    if BranchName(v) in w.branches { TagRcIs(w, issue, v, n, saveFails); }
  }

  /** No issue has changed, but for the body of that one. */
  ghost predicate OnlyBody(w: World, w': World, issue: nat) {
    issue in w.issues && issue in w'.issues && w'.issues == WithBody(w, issue, w'.issues[issue].body).issues
  }

  lemma OnlyBodyTwice(w: World, w': World, issue: nat, body: Body)
    requires issue in w.issues && OnlyBody(WithBody(w, issue, body), w', issue)
    ensures OnlyBody(w, w', issue)
  {
  }

  function Head(w: World, v: Version): Option<Commit> {
    if BranchName(v) in w.branches then Some(w.branches[BranchName(v)]) else None
  }

  /** Tagging, from the issue that lists the task. */
  lemma TagRcLeaves(w: World, issue: nat, v: Version, n: nat, body: Body, saveFails: bool)
    requires issue in w.issues && IsOpened(body, w.issues[issue].body, n) && ValidVersion(v)
    requires Head(w, v).Some? ==> IsShort(Head(w, v).value.sha)
    ensures var (w', code) := TagRc(w, issue, v, n, saveFails);
            && OnlyBody(w, w', issue)
            && IssueAfterGate(body, w'.issues[issue].body, v, n, Head(w, v), code == 0)
  {
    hide TagRc, HasTask, RcTaskName, VersionText, IsOpened, IsEdited, ValidVersion, IsShort, Update, ClosedTask,
         BranchName;
    if BranchName(v) in w.branches {
      TagRcIs(w, issue, v, n, saveFails);
      var (w', code) := TagRc(w, issue, v, n, saveFails);
      if code == 0 { ClosedBody(w.issues[issue].body, w'.issues[issue].body, v, n, w.branches[BranchName(v)]); }
    } else {
      NoBranchNoTag(w, issue, v, n, saveFails);
      assert w.issues[issue := w.issues[issue]] == w.issues;
    }
  }

  /** The gate changes nothing but its own issue's body: not at all before every
      check has passed, then by the task it may add, and by closing that task when
      it exits with 0. */
  lemma GateLeaves(w: World, issue: nat, v: Version, env: Env)
    requires issue in w.issues && VersionInTitle(w.issues[issue].title) == Some(v)
    requires Head(w, v).Some? ==> IsShort(Head(w, v).value.sha)
    ensures var (w', code) := GateAndTag(w, issue, env);
            && OnlyBody(w, w', issue)
            && var (body, after) := (w.issues[issue].body, w'.issues[issue].body);
            && if !PassesGate(w, issue, v, env) then after == body
               else IssueAfterGate(body, after, v, NextRc(v, w.tags), Head(w, v), code == 0)
  {
    var (n, body) := (NextRc(v, w.tags), w.issues[issue].body);
    TitleVersionIsValid(w.issues[issue].title);
    SameBody(w, issue);
    GateIs(w, issue, v, env);
    if PassesGate(w, issue, v, env) {
      hide NextRc, GateAndTag, TagRc, PassesGate, NoneOf, CanClose, HasTask, VersionInTitle, AddRcTask, IssueAfterGate,
           RcTaskName, IsOpened, ValidVersion, IsShort, BranchName, OnlyBody;
      var listing := GatePassed(w, issue, v, env);
      var w1 := WithBody(w, issue, listing);
      TagRcLeaves(w1, issue, v, n, body, env.closingFails);
      OnlyBodyTwice(w, TagRc(w1, issue, v, n, env.closingFails).0, issue, listing);
    } else {
      hide GateAndTag, PassesGate, VersionInTitle, IssueAfterGate;
    }
  }

  lemma NoBranchNoTag(w: World, issue: nat, v: Version, n: nat, saveFails: bool)
    requires issue in w.issues && BranchName(v) !in w.branches
    ensures TagRc(w, issue, v, n, saveFails) == (w, 1)
  {
  }
}
