/** create-rc as a whole: when it tags, and exactly when it succeeds, told from the
    issue, the pull requests and the outcomes of the picks it starts with. */
module ReleaseSuccess {
  import opened Text
  import opened Decimal
  import opened Checklist
  import opened IssueBody
  import opened GitGraph
  import opened ReleaseSteps
  import opened ReleaseIssueSafety
  import opened ReleaseNotes
  import opened ReleaseChecklist
  import opened ReleaseGate
  import opened ReleaseCut
  import opened ReleaseReady
  import opened ReleaseResults

  // ------------------------------------------------------------- when it tags

  /** create-rc tags the next candidate at its branch's head exactly when the
      backports exit with 0 and every check passes on what they leave. */
  lemma CreateRcTagsIff(w: World, issue: nat, v: Version, env: Env)
    requires issue in w.issues && VersionInTitle(w.issues[issue].title) == Some(v)
    ensures var ((p, c), (w', code)) := (ProcessBackports(w, issue, [], env, false), CreateRc(w, issue, env));
            var (n, branch) := (NextRc(v, w.tags), "release/" + v.major + "." + v.minor);
            var tag := v.major + "." + v.minor + "." + v.patch + "-rc" + FromNat(n);
            && issue in p.issues && BranchName(v) == branch && w'.branches == p.branches
            && w'.tags == (if c == 0 && MayTag(p, issue, v, env) then w.tags[tag := p.branches[branch]] else w.tags)
            && (code == 0 <==>
                  c == 0 && MayTag(p, issue, v, env) && !env.closingFails
                  && (NoneOf(SplitLines(p.issues[issue].body), Rc(n)) || CanClose(p.issues[issue].body, n)))
  {
    BackportsOnly(w, issue, env);
    BranchUrlIs(v);
    var (p, c) := ProcessBackports(w, issue, [], env, false);
    GateTagsIff(p, issue, v, env);
    hide ProcessBackports, GateAndTag, VersionInTitle, BranchName, NextRc, MayTag, NoneOf, CanClose, SplitLines;
  }

  // ---------------------------------------------------------- the edits it makes

  /** A line whose last word follows something else than `##` is no header. */
  lemma LastWordIsNoHeader(line: string, x: string, c: char, y: string)
    requires line == x + [c] + [' '] + y && c != '#' && forall i :: 0 <= i < |y| ==> !IsSpace(y[i])
    ensures !IsHeader(line)
  {
    var (low, m, s) := (Lower(line), |line|, "## backports");
    if m >= 12 {
      assert low[m - 12..][2] == low[m - 10] == LowerChar(line[m - 10]);
      assert low[m - 12..][1] == low[m - 11] == LowerChar(line[m - 11]);
      assert line[|x| + 1] == ' ' && line[|x|] == c;
      assert forall i :: |x| + 2 <= i < m ==> line[i] == y[i - |x| - 2];
      assert s[1] == '#' && s[2] == ' ';
      assert forall i :: 3 <= i < 12 ==> s[i] != ' ';
      assert |x| + 1 > m - 10 ==> low[m - 12..][|x| + 1 - (m - 12)] == LowerChar(' ');
    }
  }

  lemma StatusIsNoHeader(name: string, status: string)
    requires IsShort(status)
    ensures !IsHeader(FormatLine(false, name, [Pair("status", status)]))
  {
    var y := "status=" + status;
    assert forall i :: 0 <= i < 7 ==> !IsSpace("status="[i]);
    StatusLine(name, status);
    hide IsHeader, FormatLine;
    LastWordIsNoHeader(FormatLine(false, name, [Pair("status", status)]), "- [ ] " + name + " ", '|', y);
  }

  lemma StatusLine(name: string, status: string)
    ensures FormatLine(false, name, [Pair("status", status)])
            == "- [ ] " + name + " " + ['|'] + [' '] + ("status=" + status)
  {
    PlainKey("status");
    assert FormatPairs([Pair("status", status)]) == "status=" + status;
  }

  lemma PlainKey(key: string)
    requires key == "status" || key == "rc"
    ensures key != "commit" && !EndsWith(key, "_commit")
  {
    assert "status"[0] == 's' && "commit"[0] == 'c' && "rc"[0] == 'r';
  }

  lemma DoneIsNoHeader(name: string, rc: string, short: string)
    requires IsShort(short)
    ensures !IsHeader(FormatLine(true, name, [Pair("status", "done"), Pair("rc", rc), Pair("commit", short)]))
  {
    var (a, b, c) := (Pair("status", "done"), Pair("rc", rc), Pair("commit", short));
    assert FormatPair(c) == "commit= " + short;
    ThreePairs(a, b, c);
    hide IsHeader, FormatPair;
    var x := "- [x] " + name + " | " + FormatPair(a) + " " + FormatPair(b) + " " + "commit";
    CommitLast(x, FormatLine(true, name, [a, b, c]), "- [x] " + name + " | " + FormatPair(a) + " " + FormatPair(b)
        + " ", short);
    LastWordIsNoHeader(FormatLine(true, name, [a, b, c]), x, '=', short);
  }

  lemma CommitLast(x: string, line: string, front: string, short: string)
    requires line == front + ("commit= " + short) && x == front + "commit"
    ensures line == x + ['='] + [' '] + short
  {
    assert "commit= " == "commit" + ['='] + [' '];
  }

  lemma ThreePairs(a: Pair, b: Pair, c: Pair)
    ensures forall name :: FormatLine(true, name, [a, b, c])
                           == "- [x] " + name + " | " + FormatPair(a) + " " + FormatPair(b) + " " + FormatPair(c)
  {
    hide FormatPair;
    assert [a, b, c][1..] == [b, c] && [b, c][1..] == [c];
    assert FormatPairs([c]) == FormatPair(c);
    assert FormatPairs([b, c]) == FormatPair(b) + " " + FormatPair(c);
    assert FormatPairs([a, b, c]) == FormatPair(a) + " " + FormatPairs([b, c]);
  }

  lemma BecomesIsNoHeader(w: World, v: Version, items: seq<Task>, k: nat, env: Env)
    requires k < |items| && AllPrRefs(items) && ShortsAreGood(env) && Becomes(w, v, items, k, env).Some?
    ensures var t := Becomes(w, v, items, k, env).value;
            IsPrRef(t.name) && !IsHeader(FormatLine(t.checked, t.name, t.metadata))
  {
    var (t, sha) := (items[k], CommitOf(items[k], env));
    StatusesAreShort(t, env);
    if LookupStatus(t, env).Some? {
      StatusIsNoHeader(t.name, LookupStatus(t, env).value);
    } else if sha.value in env.picks && env.picks[sha.value].Pushed? {
      DoneIsNoHeader(t.name, "rc" + FromNat(NextRc(v, w.tags)), env.picks[sha.value].short);
    } else {
      StatusIsNoHeader(t.name, "error-merge-conflict");
    }
    hide IsHeader, FormatLine, IsPrRef, CommitOf, LookupStatus, Reached, AskedLater, IsShort, NextRc;
  }

  lemma GoodIsShort(status: string)
    requires GoodMetadata([Pair("status", status)])
    ensures IsShort(status)
  {
    assert GoodPair([Pair("status", status)][0]);
  }

  lemma StatusesAreShort(t: Task, env: Env)
    requires IsPrRef(t.name)
    ensures LookupStatus(t, env).Some? ==> IsShort(LookupStatus(t, env).value)
    ensures IsShort("error-merge-conflict")
  {
    ConflictIsGood();
    GoodIsShort("error-merge-conflict");
    ResolveIs(t, env);
    ResolvedStatusIsGood(t, env);
    hide *;
    if LookupStatus(t, env).Some? { GoodIsShort(LookupStatus(t, env).value); }
  }

  /** All edits of a run are of backports. */
  lemma RunEditsBackports(w: World, v: Version, items: seq<Task>, env: Env)
    requires AllPrRefs(items) && NamesDiffer(items) && ShortsAreGood(env)
    ensures EditsBackports(RunEdits(w, v, items, env))
  {
    hide IsHeader, FormatLine, AllPrRefs, NamesDiffer, RunEdits, Becomes, ShortsAreGood, IsPrRef, Lower;
    var edits := RunEdits(w, v, items, env);
    forall e | e in edits ensures IsPrRef(e.ref) && !IsHeader(FormatLine(e.checked, e.ref, e.metadata)) {
      var j := EditIsOfPending(w, v, items, env, e);
      EditsOf(w, v, items, j, env);
      BecomesIsNoHeader(w, v, items, j, env);
    }
  }

  // --------------------------------------------------------- when it succeeds

  /** No update of a pending backport fails to be saved. */
  ghost predicate SavesWork(items: seq<Task>, env: Env) {
    forall t :: t in items ==> t.name !in env.saveFails
  }

  /** No line is a header and names a pending backport at once. */
  ghost predicate HeadersAreApart(body: seq<string>, items: seq<Task>) {
    forall l, t :: l in body && IsHeader(l) && t in items ==> !Named(l, t.name)
  }

  lemma AllAreStored(w: World, v: Version, items: seq<Task>, env: Env)
    requires AllPrRefs(items) && SavesWork(items, env)
    ensures Stored(RunEdits(w, v, items, env), env.saveFails) == RunEdits(w, v, items, env)
  {
    hide AllPrRefs, RunEdits;
    var edits := RunEdits(w, v, items, env);
    if edits != [] {
      var j := EditIsOfPending(w, v, items, env, edits[|edits| - 1]);
      assert items[j] in items;
    }
  }

  ghost predicate IsDealtWith(t: Task) {
    Get(t.metadata, "status") == Some(if t.checked then "done" else "ignore")
  }

  /** The pending backport of that name, to which something happens. */
  ghost predicate IsChanged(w: World, v: Version, items: seq<Task>, env: Env, t: Task, k: nat)
    requires AllPrRefs(items)
  {
    k < |items| && Lower(t.name) == Lower(items[k].name) && Becomes(w, v, items, k, env).Some?
  }

  /** Every listed backport is checked off by the run, or nothing happens to it and
      it is done or ignored as it stands. */
  ghost predicate AllSettle(w: World, v: Version, items: seq<Task>, listed: seq<Task>, env: Env)
    requires AllPrRefs(items)
  {
    forall t :: t in listed ==> (exists k: nat :: IsChanged(w, v, items, env, t, k)) || IsDealtWith(t)
  }

  lemma EndIs(w: World, v: Version, items: seq<Task>, env: Env, t: Task)
    requires AllPrRefs(items) && NamesDiffer(items)
    ensures var last := LastEdit(RunEdits(w, v, items, env), t.name);
            && (last.None? ==> forall k: nat :: !IsChanged(w, v, items, env, t, k))
            && (last.Some? ==> exists k: nat :: IsChanged(w, v, items, env, t, k)
                                 && last.value == EditOf(Becomes(w, v, items, k, env).value))
  {
    hide AllPrRefs, NamesDiffer, RunEdits, Becomes, Lower, LastEdit;
    var edits := RunEdits(w, v, items, env);
    LastEditIs(edits, t.name);
    var last := LastEdit(edits, t.name);
    if last.Some? {
      var j := EditIsOfPending(w, v, items, env, last.value);
      EditsOf(w, v, items, j, env);
      assert IsChanged(w, v, items, env, t, j);
    } else {
      forall k: nat | k < |items| && Lower(t.name) == Lower(items[k].name) ensures Becomes(w, v, items, k, env).None? {
        EditsOf(w, v, items, k, env);
        BecomesName(w, v, items, k, env);
      }
    }
  }

  lemma CheckedIsDone(w: World, v: Version, items: seq<Task>, k: nat, env: Env)
    requires k < |items| && AllPrRefs(items) && Becomes(w, v, items, k, env).Some?
    requires Becomes(w, v, items, k, env).value.checked
    ensures IsDealtWith(Written(EditOf(Becomes(w, v, items, k, env).value)))
  {
    hide AllPrRefs, CommitOf, LookupStatus, Reached, AskedLater, NextRc;
    var md := Becomes(w, v, items, k, env).value.metadata;
    assert md[0] == Pair("status", "done") && |md| == 3 && md[1].key == "rc" && md[2].key == "commit";
    GetIs(md, "status", "done");
    assert "status"[0] == 's' && "rc"[0] == 'r' && "commit"[0] == 'c';
    assert IsLastPair(md, 0, Pair("status", "done"));
  }

  /** Once every backport that changed is checked off, the gate's view of what is
      listed afterwards can be told beforehand. */
  lemma SettledAfterwards(w: World, v: Version, items: seq<Task>, listed: seq<Task>, env: Env)
    requires AllPrRefs(items) && NamesDiffer(items)
    requires forall k :: 0 <= k < |items| && Becomes(w, v, items, k, env).Some? ==>
               Becomes(w, v, items, k, env).value.checked
    ensures AllDealtWith(EditedTasks(listed, RunEdits(w, v, items, env))) <==> AllSettle(w, v, items, listed, env)
  {
    hide AllPrRefs, NamesDiffer, RunEdits, Becomes, Get;
    var edits := RunEdits(w, v, items, env);
    var after := EditedTasks(listed, edits);
    forall i | 0 <= i < |listed|
      ensures IsDealtWith(after[i]) <==>
                (exists k: nat :: IsChanged(w, v, items, env, listed[i], k)) || IsDealtWith(listed[i])
    {
      OneSettled(w, v, items, listed[i], env);
    }
    AllByIndex(after);
    forall t | t in listed && AllDealtWith(after)
      ensures (exists k: nat :: IsChanged(w, v, items, env, t, k)) || IsDealtWith(t)
    {
      var i :| 0 <= i < |listed| && listed[i] == t;
      assert IsDealtWith(after[i]);
    }
  }

  lemma AllByIndex(items: seq<Task>)
    ensures AllDealtWith(items) <==> forall i :: 0 <= i < |items| ==> IsDealtWith(items[i])
  {
    hide Get;
  }

  lemma OneSettled(w: World, v: Version, items: seq<Task>, t: Task, env: Env)
    requires AllPrRefs(items) && NamesDiffer(items)
    requires forall k :: 0 <= k < |items| && Becomes(w, v, items, k, env).Some? ==>
               Becomes(w, v, items, k, env).value.checked
    ensures IsDealtWith(EditedTask(t, RunEdits(w, v, items, env))) <==>
              (exists k: nat :: IsChanged(w, v, items, env, t, k)) || IsDealtWith(t)
  {
    EndIs(w, v, items, env, t);
    hide AllPrRefs, NamesDiffer, RunEdits, Becomes, LastEdit, IsDealtWith;
    var last := LastEdit(RunEdits(w, v, items, env), t.name);
    if last.Some? {
      var k: nat :| IsChanged(w, v, items, env, t, k) && last.value == EditOf(Becomes(w, v, items, k, env).value);
      CheckedIsDone(w, v, items, k, env);
    }
  }

  /** The run of process-backports that create-rc starts with succeeds. */
  ghost predicate PicksSucceed(w: World, v: Version, items: seq<Task>, env: Env)
    requires AllPrRefs(items)
  {
    && (Reached(w, v, items, env) || forall k :: 0 <= k < |items| ==> CommitOf(items[k], env) == None)
    && forall k :: 0 <= k < |items| && Becomes(w, v, items, k, env).Some? ==> Becomes(w, v, items, k, env).value.checked
  }

  /** All that create-rc needs, of what it starts with. */
  ghost predicate IsReady(w: World, issue: nat, v: Version, env: Env)
    requires issue in w.issues && AllPrRefs(Pending(Backports(w.issues[issue].body)))
  {
    var (body, n) := (w.issues[issue].body, NextRc(v, w.tags));
    var items := Pending(Backports(body));
    && PicksSucceed(w, v, items, env) && AllSettle(w, v, items, Backports(body), env)
    && HasStatus(SplitLines(body), Preparing, "done") && HasStatus(SplitLines(body), Branching, "done")
    && BranchName(v) in w.branches && TaskIsOpen(body, n, env.addingFails)
    && !env.closingFails && (NoneOf(SplitLines(body), Rc(n)) || CanClose(body, n))
  }

  /** What the picks leave is read by the gate as it was before, but for the
      backports that they changed. */
  lemma AfterPicks(w: World, issue: nat, v: Version, env: Env)
    requires issue in w.issues && VersionInTitle(w.issues[issue].title) == Some(v) && ShortsAreGood(env)
    requires var items := Pending(Backports(w.issues[issue].body));
             NamesDiffer(items) && SavesWork(items, env) && HeadersAreApart(w.issues[issue].body, items)
    ensures AllPrRefs(Pending(Backports(w.issues[issue].body)))
    ensures var (body, items) := (w.issues[issue].body, Pending(Backports(w.issues[issue].body)));
            var p := ProcessBackports(w, issue, [], env, false).0;
            && issue in p.issues && Alike(SplitLines(body), SplitLines(p.issues[issue].body))
            && Backports(p.issues[issue].body) == EditedTasks(Backports(body), RunEdits(w, v, items, env))
  {
    var body := w.issues[issue].body;
    var items := Pending(Backports(body));
    AfterRun(w, issue, v, [], env, body);
    hide ProcessBackports, VersionInTitle, AllPrRefs, NamesDiffer, ShortsAreGood, Backports, Pending, Stored, RunEdits,
         IsEdited, EditsBackports, Unchecked, PicksRun, HeadersAreApart, SavesWork, Alike;
    AllAreStored(w, v, items, env);
    RunEditsBackports(w, v, items, env);
    var edits := RunEdits(w, v, items, env);
    var after := ProcessBackports(w, issue, [], env, false).0.issues[issue].body;
    HeadersApartFrom(w, v, body, items, env);
    EditedIsAlike(body, after, edits);
    BackportsEdited(body, after, edits);
  }

  lemma HeadersApartFrom(w: World, v: Version, body: Body, items: seq<Task>, env: Env)
    requires AllPrRefs(items) && HeadersAreApart(body, items)
    ensures HeadersApart(body, RunEdits(w, v, items, env))
  {
    hide IsHeader, Named, AllPrRefs, RunEdits;
    forall l, e | l in body && IsHeader(l) && e in RunEdits(w, v, items, env) ensures !Named(l, e.ref) {
      var j := EditIsOfPending(w, v, items, env, e);
      assert items[j] in items;
    }
  }

  /** create-rc exits with 0 exactly when everything is ready for it. */
  lemma CreateRcSucceedsIff(w: World, issue: nat, v: Version, env: Env)
    requires issue in w.issues && VersionInTitle(w.issues[issue].title) == Some(v) && ShortsAreGood(env)
    requires var items := Pending(Backports(w.issues[issue].body));
             NamesDiffer(items) && SavesWork(items, env) && HeadersAreApart(w.issues[issue].body, items)
    ensures AllPrRefs(Pending(Backports(w.issues[issue].body)))
    ensures CreateRc(w, issue, env).1 == 0 <==> IsReady(w, issue, v, env)
  {
    var body := w.issues[issue].body;
    var items := Pending(Backports(body));
    CreateRcTagsIff(w, issue, v, env);
    AfterPicks(w, issue, v, env);
    PicksSucceedIff(w, issue, v, env);
    BackportsOnly(w, issue, env);
    hide ProcessBackports, CreateRc, VersionInTitle, AllPrRefs, NamesDiffer, ShortsAreGood, Backports, Pending,
         RunEdits,
         HeadersAreApart, SavesWork, Alike, PicksSucceed, AllSettle, MayTag, NextRc, BranchName, TaskIsOpen, CanClose,
         NoneOf, HasStatus, SplitLines, EditedTasks;
    var p := ProcessBackports(w, issue, [], env, false).0;
    if PicksSucceed(w, v, items, env) { GateAfterwards(w, p, issue, v, env); }
  }

  lemma PicksSucceedIff(w: World, issue: nat, v: Version, env: Env)
    requires issue in w.issues && VersionInTitle(w.issues[issue].title) == Some(v) && ShortsAreGood(env)
    requires NamesDiffer(Pending(Backports(w.issues[issue].body)))
    ensures AllPrRefs(Pending(Backports(w.issues[issue].body)))
    ensures ProcessBackports(w, issue, [], env, false).1 == 0
            <==> PicksSucceed(w, v, Pending(Backports(w.issues[issue].body)), env)
  {
    ExitIsZeroIff(w, issue, v, [], env, w.issues[issue].body);
    hide ProcessBackports, VersionInTitle, AllPrRefs, NamesDiffer, ShortsAreGood, Backports, Pending, Becomes, Reached,
         CommitOf;
  }

  lemma GateAfterwards(w: World, p: World, issue: nat, v: Version, env: Env)
    requires issue in w.issues && VersionInTitle(w.issues[issue].title) == Some(v) && issue in p.issues
    requires p.issues[issue].title == w.issues[issue].title && p.tags == w.tags && p.branches.Keys == w.branches.Keys
    requires AllPrRefs(Pending(Backports(w.issues[issue].body)))
             && NamesDiffer(Pending(Backports(w.issues[issue].body)))
    requires PicksSucceed(w, v, Pending(Backports(w.issues[issue].body)), env)
    requires var (body, items) := (w.issues[issue].body, Pending(Backports(w.issues[issue].body)));
             && Alike(SplitLines(body), SplitLines(p.issues[issue].body))
             && Backports(p.issues[issue].body) == EditedTasks(Backports(body), RunEdits(w, v, items, env))
    ensures var (n, after) := (NextRc(v, w.tags), p.issues[issue].body);
            MayTag(p, issue, v, env) && !env.closingFails && (NoneOf(SplitLines(after), Rc(n)) || CanClose(after, n))
            <==> IsReady(w, issue, v, env)
  {
    var (body, after, n) := (w.issues[issue].body, p.issues[issue].body, NextRc(v, w.tags));
    var items := Pending(Backports(body));
    assert forall k :: 0 <= k < |items| && Becomes(w, v, items, k, env).Some? ==>
        Becomes(w, v, items, k, env).value.checked;
    assert BranchName(v) in p.branches.Keys <==> BranchName(v) in w.branches.Keys;
    hide VersionInTitle, AllPrRefs, NamesDiffer, Backports, Pending, RunEdits, Alike, PicksSucceed, AllSettle, NextRc,
         BranchName, TaskIsOpen, CanClose, NoneOf, HasStatus, SplitLines, EditedTasks, Becomes, AllDealtWith;
    SettledAfterwards(w, v, items, Backports(body), env);
    AlikeStatus(SplitLines(body), SplitLines(after), Preparing, "done");
    AlikeStatus(SplitLines(body), SplitLines(after), Branching, "done");
    AlikeOpen(body, after, n, env.addingFails);
    AlikeClose(body, after, n);
  }
}
