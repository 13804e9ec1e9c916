/** What every edit of a tracking issue keeps: a backport is checked as done only
    when the release branch holds its cherry-pick. */
module ReleaseIssueSafety {
  import opened Text
  import opened Decimal
  import opened Checklist
  import opened IssueBody
  import opened GitGraph
  import opened ReleaseSteps

  /** The merge commit of each merged pull request; it never changes. */
  type Merges = map<nat, string>

  ghost predicate EnvConsistent(env: Env, merges: Merges) {
    forall n :: n in env.prs && env.prs[n].Merged? ==> n in merges && merges[n] == env.prs[n].oid
  }

  ghost predicate IsPicked(t: Task, head: Option<Commit>, merges: Merges)
    requires IsPrRef(t.name)
  {
    && PrNumber(t.name) in merges
    && head.Some? && HasPick(head.value, merges[PrNumber(t.name)])
  }

  /** Of a listed backport: done only with its cherry-pick on the branch, and while
      it is unchecked in error or without a commit noted. */
  ghost predicate LineOk(line: string, head: Option<Commit>, merges: Merges) {
    match Backport(line)
    case None => true
    case Some(t) =>
      if t.checked then Status(t) == "done" ==> IsPicked(t, head, merges)
      else StartsWith(Status(t), "error-") || TaskCommit(Some(t)) == ""
  }

  ghost predicate BodyOk(body: seq<string>, head: Option<Commit>, merges: Merges) {
    forall l :: l in body ==> LineOk(l, head, merges)
  }

  /** A branch may appear, or move to a descendant. */
  ghost predicate HeadGrows(h: Option<Commit>, g: Option<Commit>) {
    h.Some? ==> g.Some? && IsAncestor(h.value, g.value)
  }

  lemma LineOkGrows(line: string, h: Option<Commit>, g: Option<Commit>, merges: Merges)
    requires LineOk(line, h, merges) && HeadGrows(h, g)
    ensures LineOk(line, g, merges)
  {
    hide ParseLine, IsPrRef, PrNumber, IsAncestor, Status, TaskCommit;
    var b := Backport(line);
    if b.Some? && b.value.checked && Status(b.value) == "done" {
      PicksAccumulate(h.value, g.value, merges[PrNumber(b.value.name)]);
    }
  }

  lemma BodyOkGrows(body: seq<string>, h: Option<Commit>, g: Option<Commit>, merges: Merges)
    requires BodyOk(body, h, merges) && HeadGrows(h, g)
    ensures BodyOk(body, g, merges)
  {
    hide LineOk;
    forall l | l in body ensures LineOk(l, g, merges) { LineOkGrows(l, h, g, merges); }
  }

  lemma OtherTaskLineOk(checked: bool, task: string, md: Metadata, head: Option<Commit>, merges: Merges)
    requires GoodName(task, md) && !IsPrRef(task)
    ensures LineOk(FormatLine(checked, task, md), head, merges)
  {
    FormattedName(checked, task, md);
    hide ParseLine, FormatLine, IsPrRef;
  }

  lemma DoneLineOk(task: string, md: Metadata, head: Option<Commit>, merges: Merges)
    requires IsPrRef(task) && PrNumber(task) in merges && head.Some? && HasPick(head.value, merges[PrNumber(task)])
    ensures LineOk(FormatLine(true, task, md), head, merges)
  {
    PrRefIsGood(task);
    FormattedName(true, task, md);
    hide ParseLine, FormatLine, IsPrRef, PrNumber;
  }

  lemma StatusLineOk(task: string, status: string, head: Option<Commit>, merges: Merges)
    requires IsPrRef(task) && GoodMetadata([Pair("status", status)])
    ensures LineOk(FormatLine(false, task, [Pair("status", status)]), head, merges)
  {
    PrRefIsGood(task);
    Checklist.RoundTrip(false, task, [Pair("status", status)]);
    StatusHasNoCommit(Task(false, task, [Pair("status", status)]), status);
    hide ParseLine, FormatLine, IsPrRef, PrNumber, GoodMetadata, TaskCommit, Status;
  }

  lemma StatusHasNoCommit(t: Task, status: string)
    requires t.metadata == [Pair("status", status)]
    ensures TaskCommit(Some(t)) == ""
  {
    var md := t.metadata;
    assert md[|md| - 1].key == "status" && md[..|md| - 1] == [];
    assert "status"[0] == 's' && "commit"[0] == 'c';
    assert Get([], "commit") == None;
  }

  lemma NewTaskLineOk(name: string, head: Option<Commit>, merges: Merges)
    requires name != "" && Trimmed(name) && '|' !in name
    ensures LineOk("- [ ] " + name, head, merges)
  {
    NewTaskParses(name);
    hide ParseLine, IsPrRef;
  }

  lemma EmptyLineOk(head: Option<Commit>, merges: Merges)
    ensures LineOk("", head, merges)
  {
    EmptyLineParses();
    hide Backport, ParseLine;
  }

  lemma JoinedOk(lines: seq<string>, head: Option<Commit>, merges: Merges)
    requires BodyOk(lines, head, merges)
    ensures BodyOk(Joined(lines), head, merges)
  {
    EmptyLineOk(head, merges);
    hide LineOk;
  }

  lemma SplitOk(body: Body, head: Option<Commit>, merges: Merges)
    requires BodyOk(body, head, merges)
    ensures BodyOk(SplitLines(body), head, merges)
  {
    hide LineOk;
    assert forall l :: l in SplitLines(body) ==> l in body;
  }

  lemma UpdateOk(body: Body, task: string, checked: bool, md: Metadata, head: Option<Commit>, merges: Merges)
    requires BodyOk(body, head, merges)
    requires LineOk(FormatLine(checked, task, md), head, merges)
    ensures Update(body, task, checked, md).Some? ==> BodyOk(Update(body, task, checked, md).value, head, merges)
  {
    hide LineOk, FormatLine, Named, Joined;
    SplitOk(body, head, merges);
    var lines := SplitLines(body);
    var updated := UpdatedLines(lines, task, checked, md);
    forall l | l in updated ensures LineOk(l, head, merges) {
      var i :| 0 <= i < |updated| && updated[i] == l;
      assert lines[i] in lines;
    }
    JoinedOk(updated, head, merges);
  }

  lemma InsertOk(lines: seq<string>, k: nat, line: string, head: Option<Commit>, merges: Merges)
    requires k <= |lines| && BodyOk(lines, head, merges) && LineOk(line, head, merges)
    ensures BodyOk(Joined(lines[..k] + [line] + lines[k..]), head, merges)
  {
    hide LineOk;
    assert forall l :: l in lines[..k] + [line] + lines[k..] ==> l in lines || l == line;
    JoinedOk(lines[..k] + [line] + lines[k..], head, merges);
  }

  lemma AddRcTaskOk(body: Body, n: nat, head: Option<Commit>, merges: Merges)
    requires BodyOk(body, head, merges)
    ensures AddRcTask(body, n).Some? ==> BodyOk(AddRcTask(body, n).value, head, merges)
  {
    RcNameIsGood(n);
    NewTaskLineOk(RcTaskName(n), head, merges);
    SplitOk(body, head, merges);
    hide LineOk, RcPosition, RcTaskName, KindOf, IsPrRef;
    var lines := SplitLines(body);
    var k := RcPosition(lines);
    if k.Some? && k.value <= |lines| { InsertOk(lines, k.value, "- [ ] " + RcTaskName(n), head, merges); }
  }

  lemma AddSyncTaskOk(body: Body, n: nat, head: Option<Commit>, merges: Merges)
    requires BodyOk(body, head, merges)
    ensures AddSyncTask(body, n).Some? ==> BodyOk(AddSyncTask(body, n).value, head, merges)
  {
    SyncNameIsGood(n);
    NewTaskLineOk(SyncTaskName(n), head, merges);
    SplitOk(body, head, merges);
    hide LineOk, SyncPosition, SyncTaskName, HasTask;
    var lines := SplitLines(body);
    var k := SyncPosition(lines);
    if !HasTask(lines, SyncTaskName(n)) && k.Some? {
      InsertOk(lines, k.value, "- [ ] " + SyncTaskName(n), head, merges);
    }
  }

  lemma {:induction false} AddSyncTasksOk(body: Body, refs: seq<AddRef>, head: Option<Commit>, merges: Merges)
    requires BodyOk(body, head, merges)
    ensures AddSyncTasks(body, refs).Some? ==> BodyOk(AddSyncTasks(body, refs).value, head, merges)
  {
    hide BodyOk, AddSyncTask;
    if refs != [] {
      AddSyncTasksOk(body, refs[..|refs| - 1], head, merges);
      var b := AddSyncTasks(body, refs[..|refs| - 1]);
      if b.Some? && refs[|refs| - 1].PrNum? { AddSyncTaskOk(b.value, refs[|refs| - 1].n, head, merges); }
    }
  }

  /** An added line is unchecked, and in error or without a commit. */
  lemma AddedLineOk(r: AddRef, ref: string, head: Option<Commit>, merges: Merges)
    requires ref == Normalized(AddedItem(r).ref)
    requires r.Invalid? ==> ref != "" && forall i :: 0 <= i < |ref| ==> !IsSpace(ref[i])
    ensures LineOk(FormatLine(false, ref, AddedItem(r).metadata), head, merges)
  {
    match r {
      case PrNum(n) =>
        PrNumRef(n);
        assert AddedItem(r).metadata == [] && ref == "#" + FromNat(n);
        hide *;
        NumberedLineOk(ref, head, merges);
      case Invalid(_) =>
        assert AddedItem(r).metadata == [Pair("status", "error-invalid-pr")];
        hide *;
        InvalidLineOk(ref, head, merges);
    }
  }

  lemma NumberedLineOk(ref: string, head: Option<Commit>, merges: Merges)
    requires GoodName(ref, [])
    ensures LineOk(FormatLine(false, ref, []), head, merges)
  {
    Checklist.RoundTrip(false, ref, []);
    hide ParseLine, FormatLine, IsPrRef, Normalized;
  }

  lemma InvalidLineOk(ref: string, head: Option<Commit>, merges: Merges)
    requires ref != "" && forall i :: 0 <= i < |ref| ==> !IsSpace(ref[i])
    ensures LineOk(FormatLine(false, ref, [Pair("status", "error-invalid-pr")]), head, merges)
  {
    InvalidLine(ref);
    hide ParseLine, FormatLine, IsPrRef, Normalized, TaskCommit;
  }

  lemma InvalidLine(ref: string)
    requires ref != "" && forall i :: 0 <= i < |ref| ==> !IsSpace(ref[i])
    ensures var t := ParseLine(FormatLine(false, ref, [Pair("status", "error-invalid-pr")]));
            t.Some? ==> !t.value.checked && Status(t.value) == "error-invalid-pr"
  {
    var md := [Pair("status", "error-invalid-pr")];
    DashedIsGood("error-invalid-pr");
    hide ParseLine, FormatLine, GoodPair;
    MetadataIsLast(false, ref, md);
    var t := ParseLine(FormatLine(false, ref, md));
    if t.Some? {
      var found := t.value.metadata;
      assert found[|found| - 1] == found[|found| - |md|..][0];
    }
  }

  lemma PrNumRef(n: nat)
    ensures IsPrRef("#" + FromNat(n)) && Normalized("#" + FromNat(n)) == "#" + FromNat(n)
    ensures GoodName("#" + FromNat(n), [])
  {
    assert ("#" + FromNat(n))[1..] == FromNat(n);
    PrRefIsGood("#" + FromNat(n));
  }

  predicate IsDashed(s: string) {
    s != "" && forall i :: 0 <= i < |s| ==> 'a' <= s[i] <= 'z' || s[i] == '-'
  }

  lemma DashedIsGood(status: string)
    requires IsDashed(status)
    ensures GoodMetadata([Pair("status", status)])
  {
    assert forall i :: 0 <= i < |"status"| ==> IsWord("status"[i]);
  }

  lemma FailureStatusIsDashed(state: PrState)
    ensures IsDashed(FailureStatus(state))
  {
    StatusWordsAreDashed();
    hide IsDashed;
  }

  lemma StatusWordsAreDashed()
    ensures IsDashed("error-closed-pr") && IsDashed("error-no-merge-commit") && IsDashed("resolved")
    ensures IsDashed("error-resolution-failed") && IsDashed("error-unknown")
  {
  }

  /** Every status the tools write can be read back. */
  lemma ResolvedStatusIsGood(t: Task, env: Env)
    requires IsPrRef(t.name)
    ensures Resolve(t, env).Failed? ==> GoodMetadata([Pair("status", Resolve(t, env).status)])
  {
    assert IsDashed("error-not-found");
    hide IsDashed, FailureStatus, IsPrRef, PrNumber, GoodMetadata, TaskCommit;
    var n := PrNumber(t.name);
    if n in env.prs { FailureStatusIsDashed(env.prs[n]); }
    if Resolve(t, env).Failed? { DashedIsGood(Resolve(t, env).status); }
  }

  lemma NewSectionLines(content: seq<string>, newLines: seq<string>, l: string)
    requires l in NewSection(content, newLines)
    ensures l in content || l == "" || l in newLines
  {
    CleanedBackports(content);
    TrailingEmptyBackports(Cleaned(content));
    hide Cleaned, DropTrailingEmpty, BackportsIn;
    assert l in DropTrailingEmpty(Cleaned(content)) ==> l in Cleaned(content);
  }

  /** Rewriting the backports section brings in only old lines, empty lines and
      the new ones. */
  lemma AddBackportsLines(body: Body, items: seq<NewItem>, l: string)
    requires AddBackports(body, items).Some? && l in AddBackports(body, items).value
    ensures l in body || l == "" || l in ItemLines(Unlisted(items, Names(Backports(body))))
  {
    hide ItemLines, Unlisted, Backports, Section, NewSection;
    var s := Section(body).value;
    var content := SplitLines(body[s.0..s.1]);
    var newLines := ItemLines(Unlisted(items, Names(Backports(body))));
    assert forall c :: c in content ==> c in body[s.0..s.1];
    assert forall c :: c in body[s.0..s.1] ==> c in body;
    if l in NewSection(content, newLines) { NewSectionLines(content, newLines, l); }
  }
}
