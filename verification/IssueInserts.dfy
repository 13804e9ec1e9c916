/** What inserting a task into a tracking issue adds, where, and that it keeps
    everything else. */
module IssueInserts {
  import opened Text
  import opened Decimal
  import opened Checklist
  import opened IssueBody

  // ------------------------------------------------ the backports, read in a scan

  /** The items below the first header, up to a section break after the first line. */
  function Scan(lines: seq<string>): seq<Task> {
    if |lines| < 2 then []
    else if IsHeader(lines[0]) then BackportsIn([lines[1]] + lines[2..][..Unbroken(lines[2..])])
    else Scan(lines[1..])
  }

  lemma {:induction false} ScanAt(lines: seq<string>)
    ensures var h := HeaderIndex(lines);
            Scan(lines) == if h == |lines| then [] else BackportsIn(lines[h + 1..h + 2 + Unbroken(lines[h + 2..])])
  {
    hide IsHeader, BackportsIn, Unbroken;
    if |lines| >= 2 {
      if IsHeader(lines[0]) {
        var n := Unbroken(lines[2..]);
        assert [lines[1]] + lines[2..][..n] == lines[1..2 + n];
      } else {
        ScanAt(lines[1..]);
        var h := HeaderIndex(lines[1..]);
        if h < |lines[1..]| {
          assert lines[1..][h + 2..] == lines[h + 3..];
          var n := Unbroken(lines[h + 3..]);
          assert lines[1..][h + 1..h + 2 + n] == lines[h + 2..h + 3 + n];
        }
      }
    }
  }

  lemma BackportsAreScanned(body: Body)
    ensures Backports(body) == Scan(body)
  {
    ScanAt(body);
    hide BackportsIn, HeaderIndex, Unbroken, Scan;
  }

  /** A line that is no backport and neither starts nor ends a section. */
  predicate IsNeutral(line: string) {
    Backport(line) == None && !IsHeader(line) && !IsSectionBreak(line)
  }

  lemma {:induction false} RunGrows(lines: seq<string>, k: nat, line: string)
    requires k <= |lines| && IsNeutral(line)
    ensures var more := lines[..k] + [line] + lines[k..];
            BackportsIn(more[..Unbroken(more)]) == BackportsIn(lines[..Unbroken(lines)])
  {
    hide IsSectionBreak, IsHeader, Backport, BackportsIn;
    var more := lines[..k] + [line] + lines[k..];
    if k == 0 {
      assert more == [line] + lines;
      RunStep(more);
      assert more[1..] == lines;
    } else {
      assert more[0] == lines[0];
      RunStep(more);
      RunStep(lines);
      if !IsSectionBreak(lines[0]) {
        var rest := lines[1..];
        assert more[1..] == rest[..k - 1] + [line] + rest[k - 1..];
        RunGrows(rest, k - 1, line);
      }
    }
  }

  /** The backports above the first break, from the first line on. */
  lemma RunStep(lines: seq<string>)
    requires lines != []
    ensures BackportsIn(lines[..Unbroken(lines)])
            == if IsSectionBreak(lines[0]) then []
               else (match Backport(lines[0]) case None => [] case Some(t) => [t])
                    + BackportsIn(lines[1..][..Unbroken(lines[1..])])
  {
    var n := Unbroken(lines);
    if !IsSectionBreak(lines[0]) {
      hide Backport, IsSectionBreak;
      assert lines[..n] == [lines[0]] + lines[1..][..n - 1];
      OneBackport(lines[0]);
      hide BackportsIn;
      BackportsInConcat([lines[0]], lines[1..][..n - 1]);
    }
  }

  lemma OneBackport(line: string)
    ensures BackportsIn([line]) == match Backport(line) case None => [] case Some(t) => [t]
  {
    hide Backport;
    assert [line][..0] == [];
  }

  /** Not put between a header and a break that stands directly below it. */
  predicate KeepsSection(lines: seq<string>, k: nat)
    requires k <= |lines|
  {
    0 < k < |lines| && IsHeader(lines[k - 1]) ==> !IsSectionBreak(lines[k])
  }

  /** A neutral line put anywhere else leaves the listed backports as they are. */
  lemma {:induction false} ScanGrows(lines: seq<string>, k: nat, line: string)
    requires k <= |lines| && IsNeutral(line) && KeepsSection(lines, k)
    ensures Scan(lines[..k] + [line] + lines[k..]) == Scan(lines)
  {
    hide IsSectionBreak, IsHeader, BackportsIn, Backport;
    var more := lines[..k] + [line] + lines[k..];
    OneBackport(line);
    if k == 0 {
      assert more[1..] == lines;
    } else if |lines| == 1 {
      assert more == [lines[0], line] && more[2..] == [];
      assert Unbroken([]) == 0 && [line] + [] == [line];
      assert more[1..] == [line];
    } else if IsHeader(lines[0]) {
      assert more[0] == lines[0];
      if k == 1 {
        assert more[1] == line && more[2..] == lines[1..];
        assert lines[1..][1..] == lines[2..];
        var n := Unbroken(lines[2..]);
        assert lines[1..][..n + 1] == [lines[1]] + lines[2..][..n];
        BackportsInConcat([line], [lines[1]] + lines[2..][..n]);
      } else {
        var rest := lines[2..];
        assert more[1] == lines[1] && more[2..] == rest[..k - 2] + [line] + rest[k - 2..];
        RunGrows(rest, k - 2, line);
        BackportsInConcat([lines[1]], rest[..Unbroken(rest)]);
        BackportsInConcat([lines[1]], more[2..][..Unbroken(more[2..])]);
      }
    } else {
      var rest := lines[1..];
      assert more[1..] == rest[..k - 1] + [line] + rest[k - 1..];
      ScanGrows(rest, k - 1, line);
    }
  }

  lemma {:induction false} ScanIgnoresEnd(lines: seq<string>)
    ensures Scan(lines + [""]) == Scan(lines)
  {
    EmptyIsNeutral();
    ScanGrows(lines, |lines|, "");
    assert lines[..|lines|] + [""] + lines[|lines|..] == lines + [""];
  }

  lemma EmptyIsNeutral()
    ensures IsNeutral("")
  {
    EmptyLineParses();
  }

  /** Splitting a body into its lines loses none of its backports. */
  lemma SplitScanned(body: Body)
    ensures Scan(SplitLines(body)) == Backports(body)
  {
    BackportsAreScanned(body);
    if body[|body| - 1] == "" {
      ScanIgnoresEnd(SplitLines(body));
      assert SplitLines(body) + [""] == body;
    }
  }

  // ------------------------------------------------------------------ inserting

  /** `after` is `before` with one more line, which is `line` and stands at `k`. */
  ghost predicate IsInserted(before: seq<string>, after: seq<string>, k: nat, line: string) {
    && k <= |before| && |after| == |before| + 1 && after[k] == line
    && after[..k] == before[..k] && after[k + 1..] == before[k..]
  }

  lemma InsertedKeepsBackports(body: Body, after: Body, k: nat, line: string)
    requires IsInserted(SplitLines(body), after, k, line) && IsNeutral(line) && KeepsSection(SplitLines(body), k)
    ensures Backports(after) == Backports(body)
  {
    var lines := SplitLines(body);
    assert after == lines[..k] + [line] + lines[k..];
    SplitScanned(body);
    BackportsAreScanned(after);
    hide Scan, IsNeutral, KeepsSection, Backports;
    ScanGrows(lines, k, line);
  }

  /** The name starts with `low`, letter case ignored, and goes on with a digit. */
  predicate HasNumber(name: string, low: string) {
    |low| < |name| && Lower(name[..|low|]) == low && IsDigit(name[|low|])
  }

  /** It then goes on with the whole numeral `n`. */
  ghost predicate IsNumbered(name: string, low: string, n: nat) {
    exists k: nat :: |low| < k <= |name| && NumeralUpTo(name, |low|, k, n) && Lower(name[..|low|]) == low
  }

  ghost predicate NumeralUpTo(name: string, i: nat, k: nat, n: nat) {
    && i <= k <= |name| && (forall j :: i <= j < k ==> IsDigit(name[j])) && (k == |name| || !IsDigit(name[k]))
    && (assert forall j :: 0 <= j < k - i ==> name[i..k][j] == name[i + j]; ToNat(name[i..k]) == n)
  }

  lemma NumberIs(name: string, prefix: string, n: nat)
    ensures NumberAfter(name, prefix) == Some(n) <==> IsNumbered(name, Lower(prefix), n)
  {
    hide Lower, ToNat;
    if |prefix| <= |name| {
      var rest := name[|prefix|..];
      var d := DigitRun(rest);
      assert name[|prefix|..|prefix| + d] == rest[..d];
      assert forall j :: |prefix| <= j < |prefix| + d ==> name[j] == rest[j - |prefix|];
      assert d < |rest| ==> name[|prefix| + d] == rest[d];
      if NumberAfter(name, prefix) == Some(n) { assert NumeralUpTo(name, |prefix|, |prefix| + d, n); }
      forall k: nat | |prefix| < k <= |name| && NumeralUpTo(name, |prefix|, k, n) ensures k == |prefix| + d {
        NumeralEnd(name, |prefix|, k, d, n);
      }
    }
  }

  /** A run of digits has one end. */
  lemma NumeralEnd(name: string, i: nat, k: nat, d: nat, n: nat)
    requires i < k && NumeralUpTo(name, i, k, n) && d == DigitRun(name[i..])
    ensures k == i + d
  {
    hide ToNat;
    DigitRunAll(name[i..k], name[k..]);
    assert name[i..] == name[i..k] + name[k..];
  }

  /** The task that a name stands for. */
  lemma KindIs(name: string, n: nat)
    ensures var (low, kind) := (Lower(name), KindOf(name));
            var (a, b, c) := (Contains(low, "prepare release"), Contains(low, "create release branch"),
                              Contains(low, "tag final"));
            && (kind == Preparing <==> a)
            && (kind == Branching <==> !a && b)
            && (kind == Finalizing <==> !a && !b && c)
            && (kind == Rc(n) <==> !a && !b && !c && IsNumbered(name, "tag rc", n))
            && (kind == Sync(n) <==> !a && !b && !c && IsNumbered(name, "sync changelog #", n))
  {
    NumberIs(name, "Tag RC", n);
    NumberIs(name, "Sync Changelog #", n);
    LowerNames();
    OneNumber(name);
    hide Contains, Lower, NumberAfter, IsNumbered;
  }

  lemma OneNumber(name: string)
    ensures NumberAfter(name, "Tag RC").None? || NumberAfter(name, "Sync Changelog #").None?
  {
    hide DigitRun, ToNat;
    if |name| >= 16 {
      assert Lower(name[..6])[0] == LowerChar(name[0]) == Lower(name[..16])[0];
      assert Lower("Tag RC")[0] == 't' && Lower("Sync Changelog #")[0] == 's';
    }
  }

  ghost predicate ListsRc(line: string) {
    exists t :: ParseLine(line) == Some(t) && HasNumber(t.name, "tag rc")
  }

  ghost predicate ListsSync(line: string) {
    exists t :: ParseLine(line) == Some(t) && HasNumber(t.name, "sync changelog #")
  }

  ghost predicate NamesTask(line: string, low: string) {
    exists t :: ParseLine(line) == Some(t) && Lower(t.name) == low
  }

  lemma NumberedIff(name: string, prefix: string)
    ensures NumberAfter(name, prefix).Some? <==> HasNumber(name, Lower(prefix))
  {
    hide Lower, ToNat;
    if |prefix| <= |name| {
      var rest := name[|prefix|..];
      assert DigitRun(rest) == 0 <==> rest == "" || !IsDigit(rest[0]);
    }
  }

  lemma LowerNames()
    ensures Lower("Tag RC") == "tag rc" && Lower("Sync Changelog #") == "sync changelog #"
    ensures Lower("Tag Final") == "tag final" && Lower("Create Release branch") == "create release branch"
  {
  }

  lemma RcLineIff(line: string)
    ensures IsRcLine(line) <==> ListsRc(line)
  {
    LowerNames();
    var t := ParseLine(line);
    if t.Some? { NumberedIff(t.value.name, "Tag RC"); }
    hide ParseLine, NumberAfter, Lower, HasNumber;
  }

  lemma SyncLineIff(line: string)
    ensures IsSyncLine(line) <==> ListsSync(line)
  {
    LowerNames();
    var t := ParseLine(line);
    if t.Some? { NumberedIff(t.value.name, "Sync Changelog #"); }
    hide ParseLine, NumberAfter, Lower, HasNumber;
  }

  lemma NamedIff(line: string, task: string)
    ensures Named(line, task) <==> NamesTask(line, Lower(task))
  {
    hide ParseLine, Lower;
  }

  /** `k` is right behind the last line that lists a candidate. */
  ghost predicate BehindRc(lines: seq<string>, k: nat) {
    0 < k <= |lines| && ListsRc(lines[k - 1]) && forall j :: k <= j < |lines| ==> !ListsRc(lines[j])
  }

  ghost predicate BehindSync(lines: seq<string>, k: nat) {
    0 < k <= |lines| && ListsSync(lines[k - 1]) && forall j :: k <= j < |lines| ==> !ListsSync(lines[j])
  }

  /** `k` is where the first line of that task stands. */
  ghost predicate IsFirst(lines: seq<string>, k: nat, low: string) {
    k < |lines| && NamesTask(lines[k], low) && forall j :: 0 <= j < k ==> !NamesTask(lines[j], low)
  }

  lemma {:induction false} AfterLastRcIs(lines: seq<string>)
    ensures var k := AfterLastRc(lines);
            && (k > 0 ==> BehindRc(lines, k)) && (k == 0 ==> forall j :: 0 <= j < |lines| ==> !ListsRc(lines[j]))
  {
    hide IsRcLine, ListsRc;
    if lines != [] {
      RcLineIff(lines[|lines| - 1]);
      if !IsRcLine(lines[|lines| - 1]) {
        var front := lines[..|lines| - 1];
        AfterLastRcIs(front);
        assert forall j :: 0 <= j < |lines| ==> lines[j] == if j < |front| then front[j] else lines[|lines| - 1];
      }
    }
  }

  lemma {:induction false} AfterLastSyncIs(lines: seq<string>)
    ensures var k := AfterLastSync(lines);
            && (k > 0 ==> BehindSync(lines, k)) && (k == 0 ==> forall j :: 0 <= j < |lines| ==> !ListsSync(lines[j]))
  {
    hide IsSyncLine, ListsSync;
    if lines != [] {
      SyncLineIff(lines[|lines| - 1]);
      if !IsSyncLine(lines[|lines| - 1]) {
        var front := lines[..|lines| - 1];
        AfterLastSyncIs(front);
        assert forall j :: 0 <= j < |lines| ==> lines[j] == if j < |front| then front[j] else lines[|lines| - 1];
      }
    }
  }

  lemma {:induction false} FirstNamedIs(lines: seq<string>, task: string)
    ensures var k := FirstNamed(lines, task);
            && (k < |lines| ==> IsFirst(lines, k, Lower(task)))
            && (k == |lines| ==> forall j :: 0 <= j < |lines| ==> !NamesTask(lines[j], Lower(task)))
  {
    hide Named, NamesTask, Lower;
    if lines != [] {
      NamedIff(lines[0], task);
      if !Named(lines[0], task) {
        FirstNamedIs(lines[1..], task);
        assert forall j :: 0 < j < |lines| ==> lines[j] == lines[1..][j - 1];
      }
    }
  }

  /** Where a candidate's task goes: behind the last candidate, and without one in
      front of the final task unless that is the first line. */
  ghost predicate RcPlace(lines: seq<string>, k: nat) {
    || BehindRc(lines, k)
    || (k > 0 && IsFirst(lines, k, "tag final") && forall j :: 0 <= j < |lines| ==> !ListsRc(lines[j]))
  }

  lemma RcPositionIs(lines: seq<string>, k: nat)
    ensures RcPosition(lines) == Some(k) <==> RcPlace(lines, k)
    ensures RcPosition(lines).Some? ==> RcPosition(lines).value <= |lines|
  {
    AfterLastRcIs(lines);
    FirstNamedIs(lines, "Tag Final");
    LowerNames();
    hide AfterLastRc, FirstNamed, ListsRc, NamesTask, Lower;
  }

  /** Where a sync task goes: behind the last one, else in front of the final task
      unless that is the first line, else behind the branching task. */
  ghost predicate SyncPlace(lines: seq<string>, k: nat) {
    || BehindSync(lines, k)
    || ((forall j :: 0 <= j < |lines| ==> !ListsSync(lines[j]))
        && ((k > 0 && IsFirst(lines, k, "tag final"))
            || (k > 0 && IsFirst(lines, k - 1, "create release branch")
                && forall j :: 0 < j < |lines| ==> !IsFirst(lines, j, "tag final"))))
  }

  lemma SyncPositionIs(lines: seq<string>, k: nat)
    ensures SyncPosition(lines) == Some(k) <==> SyncPlace(lines, k)
  {
    AfterLastSyncIs(lines);
    FirstNamedIs(lines, "Tag Final");
    FirstNamedIs(lines, "Create Release branch");
    LowerNames();
    hide AfterLastSync, FirstNamed, ListsSync, NamesTask, Lower;
  }

  // ---------------------------------------------------------------- the new line

  /** An unchecked task of that name and no metadata, on a line of its own. */
  ghost predicate IsNewTask(line: string, name: string) {
    ParseLine(line) == Some(Task(false, name, [])) && IsNeutral(line)
  }

  lemma NewLineIsNeutral(name: string)
    requires name != "" && Trimmed(name) && '|' !in name && !IsPrRef(name) && IsDigit(name[|name| - 1])
    ensures IsNewTask("- [ ] " + name, name)
  {
    NewTaskParses(name);
    var line := "- [ ] " + name;
    var low := Lower(line);
    assert low[|low| - 1] == LowerChar(name[|name| - 1]) && IsDigit(low[|low| - 1]);
    NoHeader(low);
    assert line[0] == '-' && line[1] == ' ';
    assert "##"[0] == '#' && "---"[1] == '-';
    hide ParseLine, IsPrRef, Lower;
  }

  lemma NoHeader(low: string)
    requires low != "" && IsDigit(low[|low| - 1])
    ensures !EndsWith(low, "## backports")
  {
    var s := "## backports";
    assert |s| == 12 && s[11] == 's';
    assert |low| >= 12 ==> low[|low| - 12..][11] == low[|low| - 1];
  }

  lemma RcTaskIsNew(n: nat)
    ensures IsNewTask("- [ ] " + RcTaskName(n), RcTaskName(n)) && KindOf(RcTaskName(n)) == Rc(n)
  {
    RcNameIsGood(n);
    LastOfSum("Tag RC", FromNat(n));
    hide KindOf, IsPrRef, Trimmed, IsNewTask;
    NewLineIsNeutral(RcTaskName(n));
  }

  lemma LastOfSum(a: string, b: string)
    requires b != ""
    ensures (a + b)[|a + b| - 1] == b[|b| - 1]
  {
  }

  lemma SyncTaskIsNew(n: nat)
    ensures IsNewTask("- [ ] " + SyncTaskName(n), SyncTaskName(n)) && KindOf(SyncTaskName(n)) == Sync(n)
  {
    SyncNameIsGood(n);
    LastOfSum("Sync Changelog #", FromNat(n));
    hide KindOf, IsPrRef, Trimmed, IsNewTask;
    NewLineIsNeutral(SyncTaskName(n));
  }

  // ---------------------------------------------------------------- the results

  /** The body that has the line one more, at `k`, and lists the same backports
      unless a line comes between a header and the break right below it. */
  ghost predicate IsGrown(body: Body, after: Body, k: nat, line: string) {
    && IsInserted(SplitLines(body), after, k, line)
    && (KeepsSection(SplitLines(body), k) ==> Backports(after) == Backports(body))
  }

  lemma JoinedIsGrown(body: Body, k: nat, line: string)
    requires k <= |SplitLines(body)| && IsNeutral(line)
    ensures var lines := SplitLines(body); IsGrown(body, Joined(lines[..k] + [line] + lines[k..]), k, line)
  {
    hide IsNeutral, KeepsSection, Backports;
    var lines := SplitLines(body);
    var after := lines[..k] + [line] + lines[k..];
    assert IsInserted(lines, after, k, line) && Joined(after) == after;
    if KeepsSection(lines, k) { InsertedKeepsBackports(body, after, k, line); }
  }

  /** Inserting succeeds exactly when there is a place for the line, puts it there
      and keeps every other line. */
  ghost predicate Inserts(body: Body, place: seq<string> -> Option<nat>, updated: Option<Body>, line: string) {
    match place(SplitLines(body))
    case None => updated == None
    case Some(k) => updated.Some? && IsGrown(body, updated.value, k, line)
  }

  lemma RcTaskInserted(body: Body, n: nat)
    ensures Inserts(body, RcPosition, AddRcTask(body, n), RcLine(n))
  {
    RcTaskIsNew(n);
    RcLineIs(n);
    var lines := SplitLines(body);
    RcPositionIs(lines, 0);
    hide RcPosition, IsGrown, IsNeutral, KindOf, RcPlace, RcTaskName, RcLine, ParseLine;
    var p := RcPosition(lines);
    if p.Some? { JoinedIsGrown(body, p.value, RcLine(n)); }
  }

  function RcLine(n: nat): string {
    "- [ ] Tag RC" + FromNat(n)
  }

  lemma RcLineIs(n: nat)
    ensures "- [ ] " + RcTaskName(n) == RcLine(n)
  {
  }

  function SyncLine(n: nat): string {
    "- [ ] Sync Changelog #" + FromNat(n)
  }

  lemma SyncLineIs(n: nat)
    ensures "- [ ] " + SyncTaskName(n) == SyncLine(n)
  {
  }

  lemma SyncTaskInserted(body: Body, n: nat)
    ensures if HasTask(SplitLines(body), SyncTaskName(n)) then AddSyncTask(body, n) == Some(body)
            else Inserts(body, SyncPosition, AddSyncTask(body, n), SyncLine(n))
  {
    SyncTaskIsNew(n);
    SyncLineIs(n);
    var lines := SplitLines(body);
    hide SyncPosition, IsGrown, IsNeutral, KindOf, SyncTaskName, SyncLine, ParseLine, HasTask;
    var p := SyncPosition(lines);
    if p.Some? { JoinedIsGrown(body, p.value, SyncLine(n)); }
  }

  /** Adding a candidate's task succeeds exactly when there is a place for it, and
      then puts its line there and keeps every other line. */
  lemma AddRcTaskInserts(body: Body, n: nat, k: nat)
    ensures AddRcTask(body, n).Some? <==> exists p: nat :: RcPlace(SplitLines(body), p)
    ensures RcPlace(SplitLines(body), k) ==>
              AddRcTask(body, n).Some? && IsGrown(body, AddRcTask(body, n).value, k, RcLine(n))
    ensures IsNewTask(RcLine(n), "Tag RC" + FromNat(n)) && KindOf("Tag RC" + FromNat(n)) == Rc(n)
  {
    RcTaskIsNew(n);
    RcLineIs(n);
    RcTaskInserted(body, n);
    hide AddRcTask, RcPosition, RcPlace, IsGrown, IsNewTask, KindOf, RcLine;
    var lines := SplitLines(body);
    var p := RcPosition(lines);
    RcPositionIs(lines, k);
    if p.Some? { RcPositionIs(lines, p.value); }
    if q: nat :| RcPlace(lines, q) { RcPositionIs(lines, q); }
  }

  /** Adding a sync task changes nothing when it is listed; otherwise it succeeds
      exactly when there is a place for it, and keeps every other line. */
  lemma AddSyncTaskInserts(body: Body, n: nat, k: nat)
    ensures IsNewTask(SyncLine(n), "Sync Changelog #" + FromNat(n))
            && KindOf("Sync Changelog #" + FromNat(n)) == Sync(n)
    ensures if exists l :: l in SplitLines(body) && NamesTask(l, Lower("Sync Changelog #" + FromNat(n)))
            then AddSyncTask(body, n) == Some(body)
            else
              && (AddSyncTask(body, n).Some? <==> exists p: nat :: SyncPlace(SplitLines(body), p))
              && (SyncPlace(SplitLines(body), k) ==>
                    AddSyncTask(body, n).Some? && IsGrown(body, AddSyncTask(body, n).value, k, SyncLine(n)))
  {
    SyncTaskIsNew(n);
    SyncLineIs(n);
    SyncTaskInserted(body, n);
    hide AddSyncTask, SyncPosition, SyncPlace, IsGrown, IsNewTask, KindOf, SyncLine, HasTask, NamesTask, Lower;
    var lines := SplitLines(body);
    ListedIff(lines, SyncTaskName(n));
    SyncPositionIs(lines, k);
    var p := SyncPosition(lines);
    if p.Some? { SyncPositionIs(lines, p.value); }
    if q: nat :| SyncPlace(lines, q) { SyncPositionIs(lines, q); }
  }

  lemma ListedIff(lines: seq<string>, task: string)
    ensures HasTask(lines, task) <==> exists l :: l in lines && NamesTask(l, Lower(task))
  {
    hide Named, NamesTask, Lower;
    forall l ensures Named(l, task) <==> NamesTask(l, Lower(task)) { NamedIff(l, task); }
    if l :| l in lines && NamesTask(l, Lower(task)) {
      var i :| 0 <= i < |lines| && lines[i] == l;
    }
  }
}
