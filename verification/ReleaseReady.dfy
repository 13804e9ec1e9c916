/** Exactly when create-rc succeeds, told from what it starts with. */
module ReleaseReady {
  import opened Text
  import opened Decimal
  import opened Checklist
  import opened IssueBody
  import opened IssueInserts
  import opened ReleaseSteps
  import opened ReleaseNotes
  import opened ReleaseGate

  // ------------------------------------------------- backports of an edited text

  /** Every edit is of a backport, and no line it could name is also a header. */
  ghost predicate EditsBackports(edits: seq<Edit>) {
    forall e :: e in edits ==> IsPrRef(e.ref) && !IsHeader(FormatLine(e.checked, e.ref, e.metadata))
  }

  ghost predicate HeadersApart(lines: seq<string>, edits: seq<Edit>) {
    forall l, e :: l in lines && IsHeader(l) && e in edits ==> !Named(l, e.ref)
  }

  function EditedTask(t: Task, edits: seq<Edit>): Task {
    match LastEdit(edits, t.name) case None => t case Some(e) => Written(e)
  }

  function EditedTasks(items: seq<Task>, edits: seq<Edit>): seq<Task> {
    seq(|items|, i requires 0 <= i < |items| => EditedTask(items[i], edits))
  }

  /** The two lines play the same part in a section. */
  ghost predicate LineKept(before: string, after: string, edits: seq<Edit>) {
    && IsHeader(after) == IsHeader(before) && IsSectionBreak(after) == IsSectionBreak(before)
    && Backport(after) == match Backport(before) case None => None case Some(t) => Some(EditedTask(t, edits))
  }

  lemma PrRefHasNoCase(name: string, ref: string)
    requires IsPrRef(ref) && Lower(name) == Lower(ref)
    ensures name == ref
  {
    assert forall i :: 0 <= i < |ref| ==> ref[i] == '#' || IsDigit(ref[i]);
    forall i | 0 <= i < |ref| ensures name[i] == ref[i] {
      assert Lower(name)[i] == LowerChar(name[i]) && Lower(ref)[i] == LowerChar(ref[i]) == ref[i];
    }
  }

  lemma TaskIsNoBreak(line: string)
    ensures IsSectionBreak(line) ==> ParseLine(line) == None
  {
    if "##" <= line {
      assert line[0] == '#' && LStrip(line) == line;
    }
    if "---" <= line {
      assert line[0] == '-' && line[1] == '-' && LStrip(line) == line && LStrip(line[1..]) == line[1..];
    }
  }

  lemma LineIsKept(before: string, after: string, edits: seq<Edit>)
    requires LineEdited(before, after, edits) && EditsBackports(edits)
    requires IsHeader(before) ==> forall e :: e in edits ==> !Named(before, e.ref)
    ensures LineKept(before, after, edits)
  {
    var t := ParseLine(before);
    if t.Some? {
      LastEditIs(edits, t.value.name);
      TaskIsNoBreak(before);
      var last := LastEdit(edits, t.value.name);
      hide ParseLine, FormatLine, IsHeader, IsPrRef, LastEdit, Lower, IsSectionBreak;
      if last.Some? {
        PrRefHasNoCase(t.value.name, last.value.ref);
        TaskIsNoBreak(after);
        assert last.value in edits && Named(before, last.value.ref);
      }
    }
  }

  lemma {:induction false} KeptUnbroken(before: seq<string>, after: seq<string>, edits: seq<Edit>)
    requires |after| == |before| && forall i :: 0 <= i < |before| ==> LineKept(before[i], after[i], edits)
    ensures Unbroken(after) == Unbroken(before)
  {
    hide IsSectionBreak, IsHeader, Backport, EditedTask;
    if before != [] && !IsSectionBreak(before[0]) {
      assert LineKept(before[0], after[0], edits);
      KeptUnbroken(before[1..], after[1..], edits);
    } else if before != [] {
      assert LineKept(before[0], after[0], edits);
    }
  }

  lemma {:induction false} KeptBackportsIn(before: seq<string>, after: seq<string>, edits: seq<Edit>)
    requires |after| == |before| && forall i :: 0 <= i < |before| ==> LineKept(before[i], after[i], edits)
    ensures BackportsIn(after) == EditedTasks(BackportsIn(before), edits)
  {
    hide IsSectionBreak, IsHeader, Backport, EditedTask;
    if before != [] {
      var n := |before| - 1;
      KeptBackportsIn(before[..n], after[..n], edits);
      assert LineKept(before[n], after[n], edits);
    }
  }

  lemma {:induction false} KeptScan(before: seq<string>, after: seq<string>, edits: seq<Edit>)
    requires |after| == |before| && forall i :: 0 <= i < |before| ==> LineKept(before[i], after[i], edits)
    ensures Scan(after) == EditedTasks(Scan(before), edits)
  {
    hide LineKept, BackportsIn, Unbroken, EditedTasks, IsHeader;
    if |before| < 2 {
      assert EditedTasks([], edits) == [] by { NoTasksEdited(edits); }
    } else {
      KeptHeader(before[0], after[0], edits);
      if IsHeader(before[0]) {
        KeptUnbroken(before[2..], after[2..], edits);
        var n := Unbroken(before[2..]);
        KeptBackportsIn([before[1]] + before[2..][..n], [after[1]] + after[2..][..n], edits);
      } else {
        KeptScan(before[1..], after[1..], edits);
      }
    }
  }

  lemma KeptHeader(before: string, after: string, edits: seq<Edit>)
    requires LineKept(before, after, edits)
    ensures IsHeader(after) == IsHeader(before)
  {
  }

  lemma NoTasksEdited(edits: seq<Edit>)
    ensures EditedTasks([], edits) == []
  {
  }

  lemma {:induction false} ScanIgnoresEmpty(lines: seq<string>, more: seq<string>)
    requires lines <= more && forall i :: |lines| <= i < |more| ==> more[i] == ""
    ensures Scan(more) == Scan(lines)
    decreases |more|
  {
    hide Scan;
    if |more| > |lines| {
      var front := more[..|more| - 1];
      assert more == front + [""];
      ScanIgnoresEmpty(lines, front);
      ScanIgnoresEnd(front);
    } else {
      assert more == lines;
    }
  }

  /** Editing backports edits what is listed, in its order, and nothing else. */
  lemma BackportsEdited(before: Body, after: Body, edits: seq<Edit>)
    requires IsEdited(before, after, edits) && EditsBackports(edits) && HeadersApart(before, edits)
    ensures Backports(after) == EditedTasks(Backports(before), edits)
  {
    BackportsAreScanned(before);
    BackportsAreScanned(after);
    var padded := after + before[|after|..];
    hide Scan, Backports, EditedTasks, EditsBackports, IsHeader, LineKept, LineEdited, Named;
    forall i | 0 <= i < |before| ensures LineKept(before[i], padded[i], edits) {
      assert before[i] in before;
      if i >= |after| { EmptyLineEdited(edits); }
      LineIsKept(before[i], padded[i], edits);
    }
    KeptScan(before, padded, edits);
    ScanIgnoresEmpty(after, padded);
  }

  lemma EmptyLineEdited(edits: seq<Edit>)
    ensures LineEdited("", "", edits)
  {
    EmptyLineParses();
    hide ParseLine;
  }

  // ------------------------------------------------ tasks other than backports

  /** The line lists no task, or a backport. */
  ghost predicate IsIdle(line: string) {
    match ParseLine(line) case None => true case Some(t) => IsPrRef(t.name)
  }

  lemma PrRefStarts(name: string)
    requires IsPrRef(name)
    ensures forall i :: 0 <= i < |name| ==> IsDigit(name[i]) || name[i] == '#'
    ensures name != ""
  {
  }

  lemma PrRefKind(name: string)
    requires IsPrRef(name)
    ensures KindOf(name) == Other
  {
    PrRefStarts(name);
    var low := Lower(name);
    assert forall i :: 0 <= i < |low| ==> IsDigit(low[i]) || low[i] == '#';
    hide Lower, DigitRun, IsPrRef;
    forall i | 0 <= i <= |low|
      ensures !("prepare release" <= low[i..]) && !("create release branch" <= low[i..]) && !("tag final" <= low[i..])
    {
      if i < |low| {
        assert low[i..][0] == low[i];
        assert "prepare release"[0] == 'p' && "create release branch"[0] == 'c' && "tag final"[0] == 't';
      }
    }
    NotNumbered(name, "Tag RC");
    NotNumbered(name, "Sync Changelog #");
  }

  lemma NotNumbered(name: string, prefix: string)
    requires forall i :: 0 <= i < |name| ==> IsDigit(name[i]) || name[i] == '#'
    requires prefix == "Tag RC" || prefix == "Sync Changelog #"
    ensures NumberAfter(name, prefix) == None
  {
    assert prefix[0] == 'T' || prefix[0] == 'S';
    if |prefix| <= |name| {
      assert Lower(name[..|prefix|])[0] == LowerChar(name[0]) && Lower(prefix)[0] == LowerChar(prefix[0]);
    }
  }

  predicate HasLetter(low: string) {
    exists i :: 0 <= i < |low| && 'a' <= low[i] <= 'z'
  }

  lemma IdleIs(line: string)
    requires IsIdle(line)
    ensures LineKind(line) == Other && !ListsRc(line)
    ensures forall low :: HasLetter(low) ==> !NamesTask(line, low)
  {
    var t := ParseLine(line);
    if t.Some? {
      PrRefKind(t.value.name);
      PrRefStarts(t.value.name);
      hide ParseLine, KindOf, IsPrRef;
      forall low | HasLetter(low) ensures Lower(t.value.name) != low {
        var i :| 0 <= i < |low| && 'a' <= low[i] <= 'z';
        assert |t.value.name| == |low| ==> Lower(t.value.name)[i] == LowerChar(t.value.name[i]);
      }
      assert |t.value.name| >= 6 ==> Lower(t.value.name[..6])[0] == LowerChar(t.value.name[0]);
      assert "tag rc"[0] == 't';
    }
  }

  /** Same lines, but for idle ones; missing ones are idle. */
  ghost predicate Alike(lines: seq<string>, others: seq<string>) {
    && |others| <= |lines|
    && (forall i :: 0 <= i < |others| ==> others[i] == lines[i] || (IsIdle(lines[i]) && IsIdle(others[i])))
    && (forall i :: |others| <= i < |lines| ==> IsIdle(lines[i]))
  }

  lemma AlikeLastOf(lines: seq<string>, others: seq<string>, kind: Kind, i: nat)
    requires Alike(lines, others) && kind != Other
    ensures IsLastOf(lines, i, kind) <==> IsLastOf(others, i, kind)
    ensures IsLastOf(lines, i, kind) ==> lines[i] == others[i]
  {
    hide IsIdle, LineKind;
    forall l | IsIdle(l) ensures LineKind(l) == Other { IdleIs(l); }
  }

  lemma AlikeNoneOf(lines: seq<string>, others: seq<string>, kind: Kind)
    requires Alike(lines, others) && kind != Other
    ensures NoneOf(lines, kind) <==> NoneOf(others, kind)
  {
    hide IsIdle, LineKind;
    forall l | IsIdle(l) ensures LineKind(l) == Other { IdleIs(l); }
    if !NoneOf(lines, kind) {
      var j :| 0 <= j < |lines| && LineKind(lines[j]) == kind;
      assert others[j] == lines[j];
    }
  }

  lemma AlikeStatus(lines: seq<string>, others: seq<string>, kind: Kind, status: string)
    requires Alike(lines, others) && kind != Other
    ensures HasStatus(lines, kind, status) <==> HasStatus(others, kind, status)
  {
    hide ParseLine, IsIdle, LineKind, Get;
    forall i: nat
      ensures IsLastOf(lines, i, kind) <==> IsLastOf(others, i, kind)
      ensures IsLastOf(lines, i, kind) ==> lines[i] == others[i]
    {
      AlikeLastOf(lines, others, kind, i);
    }
    hide IsLastOf;
    if HasStatus(lines, kind, status) {
      var i: nat, t :| IsLastOf(lines, i, kind) && ParseLine(lines[i]) == Some(t) && Get(t.metadata, "status")
          == Some(status);
      assert IsLastOf(others, i, kind);
    }
    if HasStatus(others, kind, status) {
      var i: nat, t :| IsLastOf(others, i, kind) && ParseLine(others[i]) == Some(t) && Get(t.metadata, "status")
          == Some(status);
      assert IsLastOf(lines, i, kind);
    }
  }

  lemma AlikeOpenTask(lines: seq<string>, others: seq<string>, n: nat)
    requires Alike(lines, others)
    ensures HasOpenTask(lines, n) <==> HasOpenTask(others, n)
  {
    hide ParseLine, IsIdle, LineKind, Get;
    var kind := Rc(n);
    forall i: nat
      ensures IsLastOf(lines, i, kind) <==> IsLastOf(others, i, kind)
      ensures IsLastOf(lines, i, kind) ==> lines[i] == others[i]
    {
      AlikeLastOf(lines, others, kind, i);
    }
    hide IsLastOf;
    if HasOpenTask(lines, n) {
      var i: nat, t :| IsLastOf(lines, i, kind) && ParseLine(lines[i]) == Some(t) && IsOpenTask(t);
      assert IsLastOf(others, i, kind);
    }
    if HasOpenTask(others, n) {
      var i: nat, t :| IsLastOf(others, i, kind) && ParseLine(others[i]) == Some(t) && IsOpenTask(t);
      assert IsLastOf(lines, i, kind);
    }
  }

  lemma AlikeRcPlace(lines: seq<string>, others: seq<string>, p: nat)
    requires Alike(lines, others)
    ensures RcPlace(lines, p) <==> RcPlace(others, p)
  {
    hide IsIdle, ListsRc, NamesTask;
    assert HasLetter("tag final") by { assert "tag final"[0] == 't'; }
    forall l | IsIdle(l) ensures !ListsRc(l) && !NamesTask(l, "tag final") { IdleIs(l); }
    assert forall i :: 0 <= i < |others| ==> (ListsRc(lines[i]) <==> ListsRc(others[i]));
    assert forall i :: 0 <= i < |others| ==> (NamesTask(lines[i], "tag final") <==> NamesTask(others[i], "tag final"));
  }

  lemma AlikeNames(lines: seq<string>, others: seq<string>, low: string)
    requires Alike(lines, others) && HasLetter(low)
    ensures (exists l :: l in lines && NamesTask(l, low)) <==> exists l :: l in others && NamesTask(l, low)
  {
    hide IsIdle, NamesTask, HasLetter;
    forall l | IsIdle(l) ensures !NamesTask(l, low) { IdleIs(l); }
    if l :| l in lines && NamesTask(l, low) {
      var i :| 0 <= i < |lines| && lines[i] == l;
      assert others[i] == l;
    }
    if l :| l in others && NamesTask(l, low) {
      var i :| 0 <= i < |others| && others[i] == l;
      assert lines[i] == l;
    }
  }

  /** Which tasks are listed, and where a candidate's goes, is not changed. */
  lemma AlikeOpen(body: Body, other: Body, n: nat, addingFails: bool)
    requires Alike(SplitLines(body), SplitLines(other))
    ensures TaskIsOpen(body, n, addingFails) <==> TaskIsOpen(other, n, addingFails)
    ensures NoneOf(SplitLines(body), Rc(n)) <==> NoneOf(SplitLines(other), Rc(n))
  {
    var (lines, others) := (SplitLines(body), SplitLines(other));
    AlikeNoneOf(lines, others, Rc(n));
    AlikeOpenTask(lines, others, n);
    hide Alike, RcPlace, HasOpenTask, NoneOf, SplitLines;
    forall p: nat ensures RcPlace(lines, p) <==> RcPlace(others, p) { AlikeRcPlace(lines, others, p); }
  }

  lemma AlikeClose(body: Body, other: Body, n: nat)
    requires Alike(SplitLines(body), SplitLines(other))
    ensures CanClose(body, n) <==> CanClose(other, n)
  {
    var low := Lower("Tag RC" + FromNat(n));
    assert HasLetter(low) by { assert low[1] == 'a'; }
    hide Alike, NamesTask, SplitLines, Lower, HasLetter;
    AlikeNames(SplitLines(body), SplitLines(other), low);
  }

  lemma EditedIsAlike(body: Body, after: Body, edits: seq<Edit>)
    requires IsEdited(body, after, edits) && EditsBackports(edits)
    ensures Alike(SplitLines(body), SplitLines(after))
  {
    EmptyEdited(body, after, edits);
    EmptyIsIdle();
    hide LineEdited, EditsBackports, IsIdle;
    forall i | 0 <= i < |after|
      ensures after[i] == body[i] || (IsIdle(body[i]) && IsIdle(after[i]))
      ensures body[i] == "" ==> after[i] == ""
    {
      IdleEdited(body[i], after[i], edits);
      if body[i] == "" { EmptyStays(after[i], edits); }
    }
    SplitAlike(body, after);
  }

  lemma EmptyIsIdle()
    ensures IsIdle("")
  {
    EmptyLineParses();
  }

  lemma SplitAlike(body: Body, after: Body)
    requires Alike(body, after) && forall i :: 0 <= i < |after| ==> (after[i] == "" <==> body[i] == "")
    requires forall i :: |after| <= i < |body| ==> body[i] == ""
    ensures Alike(SplitLines(body), SplitLines(after))
  {
    EmptyIsIdle();
    hide IsIdle;
    var (n, m) := (|SplitLines(body)|, |SplitLines(after)|);
    assert m <= n;
    assert SplitLines(after) == after[..m] && SplitLines(body) == body[..n];
    assert forall i :: m <= i < |after| ==> body[i] == "";
  }

  lemma EmptyStays(after: string, edits: seq<Edit>)
    requires LineEdited("", after, edits)
    ensures after == ""
  {
    EmptyLineParses();
    hide ParseLine;
  }

  lemma IdleEdited(before: string, after: string, edits: seq<Edit>)
    requires LineEdited(before, after, edits) && EditsBackports(edits)
    ensures after == before || (IsIdle(before) && IsIdle(after))
  {
    var t := ParseLine(before);
    if t.Some? { LastEditIs(edits, t.value.name); }
    hide ParseLine, FormatLine, IsHeader, IsPrRef, LastEdit, Lower;
    if t.Some? && LastEdit(edits, t.value.name).Some? {
      PrRefHasNoCase(t.value.name, LastEdit(edits, t.value.name).value.ref);
    }
  }
}
