/** What `--add` makes of a tracking issue: the new backports, their sync tasks and
    an open candidate to take them. */
module IssueAdds {
  import opened Text
  import opened Decimal
  import opened Selection
  import opened Checklist
  import opened IssueBody
  import opened IssueInserts
  import opened ReleaseSteps
  import opened ReleaseIssueSafety
  import opened ReleaseBackportSafety
  import opened ReleaseGate
  import opened ReleaseReady
  import opened ReleaseNotes
  import opened ReleaseSuccess

  // ------------------------------------------------------------ which are new

  /** The first item of a reference that is not listed yet. */
  ghost predicate IsNew(items: seq<NewItem>, existing: set<string>, k: nat) {
    && k < |items| && Normalized(items[k].ref) !in existing
    && forall j :: 0 <= j < k ==> Normalized(items[j].ref) != Normalized(items[k].ref)
  }

  /** The new items are those at the given places, in order. */
  ghost predicate AreTaken(items: seq<NewItem>, taken: seq<NewItem>, at: seq<nat>) {
    && |at| == |taken| && IsIncreasing(at)
    && forall i :: 0 <= i < |at| ==>
         at[i] < |items| && taken[i] == NewItem(Normalized(items[at[i]].ref), items[at[i]].metadata)
  }

  lemma TakenBelow(items: seq<NewItem>, taken: seq<NewItem>, at: seq<nat>)
    requires items != [] && AreTaken(items[1..], taken, at)
    ensures AreTaken(items, taken, Shifted(at))
    ensures AreTaken(items, [NewItem(Normalized(items[0].ref), items[0].metadata)] + taken, [0] + Shifted(at))
  {
    hide Normalized;
    assert forall i :: 0 <= i < |at| ==> items[at[i] + 1] == items[1..][at[i]];
  }

  /** Each new reference is listed once, with its first metadata, in their order. */
  lemma {:induction false} UnlistedAre(items: seq<NewItem>, existing: set<string>) returns (at: seq<nat>)
    ensures AreTaken(items, Unlisted(items, existing), at)
    ensures forall k: nat :: k in at <==> IsNew(items, existing, k)
    decreases |items|
  {
    hide Normalized;
    if items == [] {
      at := [];
    } else {
      var (ref, rest) := (Normalized(items[0].ref), items[1..]);
      var below := UnlistedAre(rest, existing + {ref});
      at := if ref in existing then Shifted(below) else [0] + Shifted(below);
      TakenBelow(items, Unlisted(rest, existing + {ref}), below);
      if ref in existing { assert existing + {ref} == existing; }
      hide AreTaken, IsNew;
      forall k: nat ensures k in at <==> IsNew(items, existing, k) {
        NewBelow(items, existing, k);
        PlacesAre(below, ref !in existing, k);
      }
    }
  }

  lemma NewBelow(items: seq<NewItem>, existing: set<string>, k: nat)
    requires items != []
    ensures IsNew(items, existing, k) <==>
              if k == 0 then Normalized(items[0].ref) !in existing
              else IsNew(items[1..], existing + {Normalized(items[0].ref)}, k - 1)
  {
    hide Normalized;
    if 0 < k < |items| {
      assert forall j :: 0 < j < |items| ==> items[j] == items[1..][j - 1];
      assert (forall j :: 0 <= j < k ==> Normalized(items[j].ref) != Normalized(items[k].ref))
             <==> Normalized(items[0].ref) != Normalized(items[k].ref)
                  && forall j :: 0 <= j < k - 1 ==> Normalized(items[1..][j].ref) != Normalized(items[k].ref);
    }
  }

  /** A number alone gets a `#`; every other reference stays as typed. */
  lemma NormalizedIs(ref: string)
    ensures Normalized(ref) == if IsNumeral(ref) then "#" + ref else ref
  {
    assert IsNumeral(ref) ==> IsDigit(ref[0]);
  }

  // ---------------------------------------------------- the section's other lines

  /** The lines that are neither empty nor tasks of no pull request. */
  function TextOf(lines: seq<string>): seq<string> {
    if lines == [] then []
    else (if lines[0] == "" || IsPlaceholder(lines[0]) then [] else [lines[0]]) + TextOf(lines[1..])
  }

  lemma {:induction false} TextOfConcat(a: seq<string>, b: seq<string>)
    ensures TextOf(a + b) == TextOf(a) + TextOf(b)
  {
    hide IsPlaceholder;
    if a == [] {
      assert a + b == b;
    } else {
      assert (a + b)[1..] == a[1..] + b;
      TextOfConcat(a[1..], b);
    }
  }

  lemma {:induction false} CleanedText(lines: seq<string>)
    ensures TextOf(Cleaned(lines)) == TextOf(lines) && forall l :: l in Cleaned(lines) ==> !IsPlaceholder(l)
  {
    hide IsPlaceholder;
    if lines != [] {
      var (front, last) := (lines[..|lines| - 1], [lines[|lines| - 1]]);
      CleanedText(front);
      assert lines == front + last;
      TextOfConcat(front, last);
      TextOfConcat(Cleaned(front), last);
      assert TextOf([]) == [];
    }
  }

  lemma {:induction false} TrailingText(lines: seq<string>)
    ensures TextOf(DropTrailingEmpty(lines)) == TextOf(lines) && DropTrailingEmpty(lines) <= lines
  {
    hide IsPlaceholder;
    if lines != [] && lines[|lines| - 1] == "" {
      var front := lines[..|lines| - 1];
      TrailingText(front);
      assert lines == front + [""];
      TextOfConcat(front, [""]);
      assert TextOf([""]) == [] by { assert [""][1..] == []; }
    }
  }

  /** The text with new items: around the section nothing changes; in it, all but
      empty lines and placeholders stays, in order, with the new lines behind. */
  ghost predicate IsExtended(body: Body, after: Body, newLines: seq<string>, start: nat, end: nat, kept: seq<string>) {
    && start <= end <= |body|
    && after == body[..start] + (kept + newLines + ["", ""]) + body[end..]
    && TextOf(kept) == TextOf(body[start..end]) && forall l :: l in kept ==> !IsPlaceholder(l)
  }

  lemma SectionTidied(content: seq<string>, newLines: seq<string>) returns (kept: seq<string>)
    ensures NewSection(content, newLines) == kept + newLines + ["", ""]
    ensures TextOf(kept) == TextOf(content) && forall l :: l in kept ==> !IsPlaceholder(l)
  {
    var tidy := DropTrailingEmpty(Cleaned(content));
    CleanedText(content);
    TrailingText(Cleaned(content));
    EmptyIsNoText();
    kept := if newLines == [] && tidy == [] then [""] else tidy;
    hide Cleaned, DropTrailingEmpty, TextOf, IsPlaceholder;
    assert newLines == [] && tidy == [] ==> [""] + newLines == [""];
  }

  lemma EmptyIsNoText()
    ensures !IsPlaceholder("") && TextOf([""]) == [] && TextOf([]) == []
  {
    EmptyLineParses();
    hide ParseLine;
    assert [""][1..] == [];
  }

  lemma AddBackportsKeeps(body: Body, items: seq<NewItem>) returns (start: nat, end: nat, kept: seq<string>)
    requires Section(body).Some?
    ensures Section(body) == Some((start, end)) && AddBackports(body, items).Some?
    ensures IsExtended(body, AddBackports(body, items).value,
                       ItemLines(Unlisted(items, Names(Backports(body)))), start, end, kept)
  {
    var s := Section(body).value;
    start, end := s.0, s.1;
    SplitText(body[start..end]);
    hide TextOf, IsPlaceholder, ItemLines, Unlisted, Names, Backports, Section, NewSection;
    kept := SectionTidied(SplitLines(body[start..end]), ItemLines(Unlisted(items, Names(Backports(body)))));
  }

  lemma SplitText(lines: Body)
    ensures TextOf(SplitLines(lines)) == TextOf(lines)
  {
    if lines[|lines| - 1] == "" {
      var front := lines[..|lines| - 1];
      assert lines == front + [""];
      TextOfConcat(front, [""]);
      assert TextOf([""]) == [] by { assert [""][1..] == []; }
    }
  }

  // --------------------------------------------------------- candidates and syncs

  predicate IsRcTask(line: string) {
    LineKind(line).Rc?
  }

  /** The candidates' lines. */
  function RcLinesOf(lines: seq<string>): seq<string> {
    if lines == [] then []
    else RcLinesOf(lines[..|lines| - 1]) + if IsRcTask(lines[|lines| - 1]) then [lines[|lines| - 1]] else []
  }

  lemma {:induction false} RcLinesConcat(a: seq<string>, b: seq<string>)
    ensures RcLinesOf(a + b) == RcLinesOf(a) + RcLinesOf(b)
  {
    hide IsRcTask;
    if b == [] {
      assert a + b == a;
    } else {
      assert (a + b)[..|a + b| - 1] == a + b[..|b| - 1];
      RcLinesConcat(a, b[..|b| - 1]);
    }
  }

  lemma {:induction false} NoRcLines(lines: seq<string>)
    requires forall l :: l in lines ==> !IsRcTask(l)
    ensures RcLinesOf(lines) == []
  {
    hide IsRcTask;
    if lines != [] { NoRcLines(lines[..|lines| - 1]); }
  }

  lemma OneRcLine(line: string)
    ensures RcLinesOf([line]) == if IsRcTask(line) then [line] else []
  {
    hide IsRcTask;
    assert [line][..0] == [];
  }

  lemma InsertedRcLines(before: seq<string>, after: seq<string>, k: nat, line: string)
    requires IsInserted(before, after, k, line)
    ensures IsRcTask(line) && (forall j :: k <= j < |before| ==> !IsRcTask(before[j])) ==>
              RcLinesOf(after) == RcLinesOf(before) + [line]
    ensures !IsRcTask(line) ==> RcLinesOf(after) == RcLinesOf(before)
  {
    hide IsRcTask, RcLinesOf;
    assert before == before[..k] + before[k..] && after == before[..k] + [line] + before[k..];
    RcLinesConcat(before[..k], before[k..]);
    RcLinesConcat(before[..k] + [line], before[k..]);
    RcLinesConcat(before[..k], [line]);
    OneRcLine(line);
    if forall j :: k <= j < |before| ==> !IsRcTask(before[j]) { NoRcLines(before[k..]); }
  }

  /** The number of the candidate that a text without an open one gets. */
  ghost predicate IsNextRc(lines: seq<string>, n: nat) {
    && (forall l :: l in lines && LineKind(l).Rc? ==> LineKind(l).n < n)
    && (n > 0 ==> exists l :: l in lines && LineKind(l) == Rc(n - 1))
  }

  /** `max(rc_tags) + 1` of the listed candidates. */
  lemma {:induction false} NextRcTaskIs(lines: seq<string>)
    ensures IsNextRc(lines, NextRcTask(lines))
  {
    hide LineKind;
    if lines != [] {
      var (front, last) := (lines[..|lines| - 1], lines[|lines| - 1]);
      NextRcTaskIs(front);
      assert lines == front + [last];
      assert last in lines;
    }
  }

  /** A candidate that waits to be tagged is listed. */
  ghost predicate HasOpenRc(lines: seq<string>) {
    exists n: nat :: HasOpenTask(lines, n)
  }

  lemma PendingRcIs(lines: seq<string>)
    ensures HasPendingRc(lines) <==> HasOpenRc(lines)
  {
    forall n: nat ensures (n in RcNumbers(lines) && IsPendingTask(LastOfKind(lines, Rc(n)))) <==>
        HasOpenTask(lines, n) {
      HasOpenTaskIs(lines, n);
      RcNumberIs(lines, n);
      HasOpenListed(lines, n);
      hide HasOpenTask, LastOfKind, NoneOf, RcNumbers, Get;
    }
    hide HasOpenTask, LastOfKind, RcNumbers, IsPendingTask;
  }

  lemma HasOpenListed(lines: seq<string>, n: nat)
    ensures HasOpenTask(lines, n) ==> !NoneOf(lines, Rc(n))
  {
    hide ParseLine, LineKind, IsOpenTask;
  }

  lemma RcNumberIs(lines: seq<string>, n: nat)
    ensures n in RcNumbers(lines) <==> !NoneOf(lines, Rc(n))
  {
    hide LineKind;
    if !NoneOf(lines, Rc(n)) {
      var j :| 0 <= j < |lines| && LineKind(lines[j]) == Rc(n);
      assert lines[j] in lines;
    }
  }

  // --------------------------------------------------- by the candidates' lines

  lemma LastRcStep(lines: seq<string>, line: string, kind: Kind)
    ensures LastOfKind(lines + [line], kind) == if LineKind(line) == kind then ParseLine(line)
            else LastOfKind(lines, kind)
    ensures NextRcTask(lines + [line])
            == match LineKind(line)
               case Rc(n) => if NextRcTask(lines) < n + 1 then n + 1 else NextRcTask(lines)
               case _ => NextRcTask(lines)
  {
    hide LineKind, ParseLine;
    assert (lines + [line])[..|lines|] == lines;
  }

  /** Which candidates are listed can be told from their own lines. */
  lemma {:induction false} ByRcLines(lines: seq<string>, n: nat)
    ensures LastOfKind(RcLinesOf(lines), Rc(n)) == LastOfKind(lines, Rc(n))
    ensures NextRcTask(RcLinesOf(lines)) == NextRcTask(lines)
  {
    hide LineKind, ParseLine, LastOfKind, NextRcTask;
    if lines != [] {
      var (front, line) := (lines[..|lines| - 1], lines[|lines| - 1]);
      ByRcLines(front, n);
      assert lines == front + [line];
      LastRcStep(front, line, Rc(n));
      LastRcStep(RcLinesOf(front), line, Rc(n));
      assert RcLinesOf(front) + [] == RcLinesOf(front);
    } else {
      assert RcLinesOf(lines) == lines;
    }
  }

  lemma SameCandidates(lines: seq<string>, others: seq<string>)
    requires RcLinesOf(lines) == RcLinesOf(others)
    ensures HasOpenRc(lines) <==> HasOpenRc(others)
    ensures NextRcTask(lines) == NextRcTask(others)
  {
    ByRcLines(lines, 0);
    ByRcLines(others, 0);
    forall n: nat ensures HasOpenTask(lines, n) <==> HasOpenTask(others, n) {
      ByRcLines(lines, n);
      ByRcLines(others, n);
      HasOpenTaskIs(lines, n);
      HasOpenTaskIs(others, n);
      HasOpenListed(lines, n);
      HasOpenListed(others, n);
      hide HasOpenTask, LastOfKind, NoneOf, RcLinesOf, AlreadyTagged;
    }
  }

  lemma RcTaskIsListed(line: string)
    ensures IsRcTask(line) ==> ListsRc(line)
  {
    RcLineIff(line);
    hide ParseLine, NumberAfter, Lower, Contains, ListsRc;
  }

  /** A candidate's task that is added is the last one listed. */
  lemma AddedRcLine(body: Body, n: nat)
    requires AddRcTask(body, n).Some?
    ensures RcLinesOf(SplitLines(AddRcTask(body, n).value)) == RcLinesOf(SplitLines(body)) + [RcLine(n)]
  {
    var lines := SplitLines(body);
    AddRcTaskInserts(body, n, 0);
    var p: nat :| RcPlace(lines, p);
    AddRcTaskInserts(body, n, p);
    var after := AddRcTask(body, n).value;
    RcLineIsTask(n);
    SplitGrown(body, after, p, RcLine(n));
    hide AddRcTask, ListsRc, NamesTask, IsRcTask, RcLinesOf, IsGrown, RcLine;
    forall j | p <= j < |lines| ensures !IsRcTask(lines[j]) { RcTaskIsListed(lines[j]); }
    InsertedRcLines(lines, after, p, RcLine(n));
  }

  lemma RcLineIsTask(n: nat)
    ensures IsRcTask(RcLine(n)) && LineKind(RcLine(n)) == Rc(n)
    ensures ParseLine(RcLine(n)) == Some(Task(false, "Tag RC" + FromNat(n), []))
  {
    RcTaskIsNew(n);
    RcLineIs(n);
    assert RcTaskName(n) == "Tag RC" + FromNat(n);
    hide ParseLine, KindOf, RcLine, RcTaskName, FromNat;
  }

  /** Splitting the new text into lines loses at most an empty one at its end. */
  lemma SplitGrown(body: Body, after: Body, k: nat, line: string)
    requires IsGrown(body, after, k, line)
    ensures RcLinesOf(SplitLines(after)) == RcLinesOf(after)
    ensures forall l :: l in SplitLines(body) || l == line ==> l == "" || l in SplitLines(after)
  {
    hide IsRcTask, KeepsSection, Backports, RcLinesOf;
    var lines := SplitLines(body);
    assert after == lines[..k] + [line] + lines[k..];
    assert lines == lines[..k] + lines[k..];
    assert forall l :: l in lines || l == line ==> l in after;
    SplitRcLines(after);
    assert forall l :: l in after ==> l == "" || l in SplitLines(after) by {
      if after[|after| - 1] == "" { assert after == SplitLines(after) + [""]; }
    }
  }

  lemma SplitRcLines(body: Body)
    ensures RcLinesOf(SplitLines(body)) == RcLinesOf(body)
  {
    EmptyLineParses();
    assert !IsRcTask("") by { hide KindOf, ParseLine; }
    hide IsRcTask;
    if body[|body| - 1] == "" {
      RcLinesConcat(SplitLines(body), [""]);
      OneRcLine("");
      assert body == SplitLines(body) + [""];
    }
  }

  // ---------------------------------------------------------------- all of `--add`

  /** No task line is also a header. */
  ghost predicate NoTaskHeaders(lines: seq<string>) {
    forall l :: l in lines && IsHeader(l) ==> ParseLine(l).None?
  }

  ghost predicate ListsSyncs(lines: seq<string>, refs: seq<AddRef>) {
    forall r :: r in refs && r.PrNum? ==>
      exists l :: l in lines && NamesTask(l, Lower("Sync Changelog #" + FromNat(r.n)))
  }

  /** What one more sync task changes. */
  ghost predicate KeepsAllElse(body: Body, after: Body) {
    && RcLinesOf(SplitLines(after)) == RcLinesOf(SplitLines(body))
    && (forall l :: l in SplitLines(body) && l != "" ==> l in SplitLines(after))
    && (NoTaskHeaders(body) ==> NoTaskHeaders(after) && Backports(after) == Backports(body))
  }

  lemma SyncLineIsTask(n: nat)
    ensures !IsRcTask(SyncLine(n)) && SyncLine(n) != "" && !IsHeader(SyncLine(n))
    ensures NamesTask(SyncLine(n), Lower("Sync Changelog #" + FromNat(n)))
  {
    SyncTaskIsNew(n);
    SyncLineIs(n);
    EmptyLineParses();
    assert SyncTaskName(n) == "Sync Changelog #" + FromNat(n);
    hide ParseLine, KindOf, SyncLine, SyncTaskName, FromNat, IsHeader, Lower, Backport;
  }

  lemma SyncKeepsSection(lines: seq<string>, k: nat)
    requires NoTaskHeaders(lines) && SyncPlace(lines, k) && k <= |lines|
    ensures KeepsSection(lines, k)
  {
    hide IsHeader, ParseLine, IsSectionBreak, Lower, HasNumber;
    if 0 < k < |lines| {
      assert lines[k - 1] in lines;
      TaskIsNoBreak(lines[k]);
    }
  }

  lemma RcKeepsSection(lines: seq<string>, k: nat)
    requires NoTaskHeaders(lines) && RcPlace(lines, k) && k <= |lines|
    ensures KeepsSection(lines, k)
  {
    hide IsHeader, ParseLine, IsSectionBreak, Lower, HasNumber;
    if 0 < k < |lines| {
      assert lines[k - 1] in lines;
      TaskIsNoBreak(lines[k]);
    }
  }

  lemma GrownHeaders(body: Body, after: Body, k: nat, line: string)
    requires IsGrown(body, after, k, line) && NoTaskHeaders(body) && !IsHeader(line)
    ensures NoTaskHeaders(after) && NoTaskHeaders(SplitLines(body))
  {
    hide IsHeader, ParseLine, KeepsSection, Backports;
    var lines := SplitLines(body);
    assert after == lines[..k] + [line] + lines[k..];
    assert forall l :: l in after ==> l in lines || l == line;
    assert forall l :: l in lines ==> l in body;
  }

  lemma SyncAdded(body: Body, n: nat)
    requires AddSyncTask(body, n).Some?
    ensures KeepsAllElse(body, AddSyncTask(body, n).value)
    ensures exists l :: l in SplitLines(AddSyncTask(body, n).value)
                        && NamesTask(l, Lower("Sync Changelog #" + FromNat(n)))
  {
    var (lines, after, low) := (SplitLines(body), AddSyncTask(body, n).value, Lower("Sync Changelog #" + FromNat(n)));
    AddSyncTaskInserts(body, n, 0);
    if exists l :: l in lines && NamesTask(l, low) {
      hide *;
      SameElse(body);
    } else {
      var p: nat :| SyncPlace(lines, p);
      AddSyncTaskInserts(body, n, p);
      SyncLineIsTask(n);
      hide *;
      SyncGrown(body, after, p, n);
    }
  }

  lemma SameElse(body: Body)
    ensures KeepsAllElse(body, body)
  {
  }

  lemma SyncGrown(body: Body, after: Body, p: nat, n: nat)
    requires IsGrown(body, after, p, SyncLine(n)) && SyncPlace(SplitLines(body), p)
    ensures KeepsAllElse(body, after)
    ensures exists l :: l in SplitLines(after) && NamesTask(l, Lower("Sync Changelog #" + FromNat(n)))
  {
    SyncLineIsTask(n);
    SplitGrown(body, after, p, SyncLine(n));
    hide IsRcTask, RcLinesOf, SyncPlace, NoTaskHeaders, Backports, SyncLine, NamesTask, Lower, KeepsSection, IsHeader;
    InsertedRcLines(SplitLines(body), after, p, SyncLine(n));
    if NoTaskHeaders(body) {
      GrownHeaders(body, after, p, SyncLine(n));
      SyncKeepsSection(SplitLines(body), p);
    }
  }

  lemma KeepsThrough(a: Body, b: Body, c: Body)
    requires KeepsAllElse(a, b) && KeepsAllElse(b, c)
    ensures KeepsAllElse(a, c)
  {
    hide RcLinesOf, NoTaskHeaders, Backports;
  }

  lemma {:induction false} SyncsAdded(body: Body, refs: seq<AddRef>)
    requires AddSyncTasks(body, refs).Some?
    ensures KeepsAllElse(body, AddSyncTasks(body, refs).value)
    ensures ListsSyncs(SplitLines(AddSyncTasks(body, refs).value), refs)
  {
    hide KeepsAllElse, AddSyncTask, ListsSyncs;
    if refs == [] {
      SameElse(body);
      NoSyncs(SplitLines(body));
    } else {
      var (front, last) := (refs[..|refs| - 1], refs[|refs| - 1]);
      SyncsAdded(body, front);
      var b := AddSyncTasks(body, front).value;
      OneMoreSync(b, front, last);
      if last.PrNum? { KeepsThrough(body, b, AddSyncTask(b, last.n).value); }
      assert refs == front + [last];
    }
  }

  lemma NoSyncs(lines: seq<string>)
    ensures ListsSyncs(lines, [])
  {
  }

  lemma OneMoreSync(body: Body, refs: seq<AddRef>, r: AddRef)
    requires ListsSyncs(SplitLines(body), refs) && (r.PrNum? ==> AddSyncTask(body, r.n).Some?)
    ensures r.PrNum? ==> KeepsAllElse(body, AddSyncTask(body, r.n).value)
    ensures ListsSyncs(SplitLines(if r.PrNum? then AddSyncTask(body, r.n).value else body), refs + [r])
  {
    hide AddSyncTask, NamesTask, Lower, SplitLines, RcLinesOf, NoTaskHeaders, Backports;
    if r.PrNum? {
      SyncAdded(body, r.n);
      SyncsKept(SplitLines(body), SplitLines(AddSyncTask(body, r.n).value), refs);
    }
  }

  lemma EmptyNamesNothing(low: string)
    ensures !NamesTask("", low)
  {
    EmptyLineParses();
    hide ParseLine;
  }

  /** What adding the candidate's task changes. */
  lemma RcAdded(body: Body, n: nat)
    requires AddRcTask(body, n).Some?
    ensures var after := AddRcTask(body, n).value;
            && (forall l :: l in SplitLines(body) && l != "" ==> l in SplitLines(after))
            && (NoTaskHeaders(body) ==> Backports(after) == Backports(body))
  {
    var after := AddRcTask(body, n).value;
    AddRcTaskInserts(body, n, 0);
    var p: nat :| RcPlace(SplitLines(body), p);
    AddRcTaskInserts(body, n, p);
    SplitGrown(body, after, p, RcLine(n));
    hide AddRcTask, RcPlace, NoTaskHeaders, Backports, RcLine, KeepsSection, IsNewTask, KindOf;
    if NoTaskHeaders(body) {
      assert NoTaskHeaders(SplitLines(body)) by { SplitHeaders(body); }
      RcKeepsSection(SplitLines(body), p);
    }
  }

  lemma SplitHeaders(body: Body)
    requires NoTaskHeaders(body)
    ensures NoTaskHeaders(SplitLines(body))
  {
    hide IsHeader, ParseLine;
    assert forall l :: l in SplitLines(body) ==> l in body;
  }

  // What the rewritten section changes.

  /** No candidate's task stands in the section, where it would be removed. */
  ghost predicate RcOutside(body: Body) {
    match Section(body) case None => true case Some((start, end)) => forall l :: l in body[start..end] ==> !IsRcTask(l)
  }

  lemma SpacelessIsNoRc(name: string)
    requires ' ' !in name
    ensures NumberAfter(name, "Tag RC").None? && !KindOf(name).Rc?
  {
    hide DigitRun, ToNat, Contains;
    if |name| >= 6 {
      assert Lower(name[..6])[3] == LowerChar(name[3]) && Lower("Tag RC")[3] == ' ';
      assert name[3] in name;
    }
  }

  /** The name that a new line is read with has no blank when its reference has none. */
  lemma NewLineName(ref: string, md: Metadata)
    requires ref != "" && forall i :: 0 <= i < |ref| ==> !IsSpace(ref[i])
    ensures var t := ParseLine(FormatLine(false, ref, md)); t.Some? ==> ' ' !in t.value.name
  {
    if '|' !in ref {
      FormattedName(false, ref, md);
    } else {
      FormattedTail(false, ref, md);
      var r := AfterBox(ref, md);
      BarInName(ref, r);
      hide ParseLine, FormatLine, FindPairs, LStrip, Strip, IndexOf;
      var bar := IndexOf(r, '|');
      assert r[1..bar] == ref[..bar - 1];
      StripTrims(r[1..bar]);
    }
  }

  lemma BarInName(ref: string, r: string)
    requires '|' in ref && |r| > |ref| && r[1..|ref| + 1] == ref && r[0] == ' '
    ensures 0 < IndexOf(r, '|') <= |ref|
  {
    var i :| 0 <= i < |ref| && ref[i] == '|';
    assert r[i + 1] == r[1..|ref| + 1][i];
  }

  lemma NewLineIsPlain(ref: string, md: Metadata)
    requires ref != "" && forall i :: 0 <= i < |ref| ==> !IsSpace(ref[i])
    ensures !IsRcTask(FormatLine(false, ref, md))
  {
    NewLineName(ref, md);
    var t := ParseLine(FormatLine(false, ref, md));
    hide ParseLine, FormatLine, KindOf;
    if t.Some? { SpacelessIsNoRc(t.value.name); }
  }

  ghost predicate GoodRefs(refs: seq<AddRef>) {
    forall i :: 0 <= i < |refs| ==> GoodRef(refs[i])
  }

  /** A line for a reference from the command line. */
  ghost predicate IsItemLine(line: string) {
    exists ref, md :: line == FormatLine(false, ref, md) && ref
        != "" && (forall i :: 0 <= i < |ref| ==> !IsSpace(ref[i]))
                      && (md == [] || md == [Pair("status", "error-invalid-pr")])
  }

  lemma ItemLineIs(line: string)
    requires IsItemLine(line)
    ensures !IsRcTask(line) && !IsHeader(line)
  {
    var ref, md :| line == FormatLine(false, ref, md) && ref != "" && (forall i :: 0 <= i < |ref| ==> !IsSpace(ref[i]))
                   && (md == [] || md == [Pair("status", "error-invalid-pr")]);
    NewLineIsPlain(ref, md);
    if md == [] {
      assert FormatLine(false, ref, []) == "- [ " + [']'] + [' '] + ref;
      hide IsHeader, FormatLine, IsRcTask;
      LastWordIsNoHeader(line, "- [ ", ']', ref);
    } else {
      assert IsShort("error-invalid-pr") by { assert IsDashed("error-invalid-pr"); }
      hide IsHeader, FormatLine, IsRcTask;
      StatusIsNoHeader(ref, "error-invalid-pr");
    }
  }

  lemma AddedLinesAre(body: Body, refs: seq<AddRef>, l: string)
    requires GoodRefs(refs) && l in ItemLines(Unlisted(AddedItems(refs), Names(Backports(body))))
    ensures IsItemLine(l)
  {
    var items := AddedItems(refs);
    var at := UnlistedAre(items, Names(Backports(body)));
    hide Names, Backports, FormatLine, GoodRef, Normalized, Unlisted, AddedItem;
    var unlisted := Unlisted(items, Names(Backports(body)));
    var i :| 0 <= i < |unlisted| && ItemLines(unlisted)[i] == l;
    AddedItemIs(refs[at[i]]);
  }

  lemma AddedItemIs(r: AddRef)
    requires GoodRef(r)
    ensures var item := AddedItem(r); IsItemLine(FormatLine(false, Normalized(item.ref), item.metadata))
  {
    var (item, ref) := (AddedItem(r), Normalized(AddedItem(r).ref));
    GoodRefNormalized(r);
    if r.PrNum? { NoSpace(FromNat(r.n)); }
    assert ref != "" && forall i :: 0 <= i < |ref| ==> !IsSpace(ref[i]);
    hide FormatLine, Normalized;
  }

  lemma RcIsPlaceholder(line: string)
    ensures IsRcTask(line) ==> IsPlaceholder(line)
  {
    var t := ParseLine(line);
    if t.Some? && IsPrRef(t.value.name) { PrRefKind(t.value.name); }
    hide ParseLine, KindOf, IsPrRef;
  }

  lemma PartRcLines(body: Body, after: Body, newLines: seq<string>, start: nat, end: nat, kept: seq<string>)
    requires IsExtended(body, after, newLines, start, end, kept)
    requires (forall l :: l in newLines ==> !IsRcTask(l)) && forall l :: l in body[start..end] ==> !IsRcTask(l)
    ensures RcLinesOf(after) == RcLinesOf(body)
  {
    RewrittenHasNoRc(kept, newLines);
    NoRcLines(body[start..end]);
    Sliced(body, start, end);
    hide RcLinesOf, IsRcTask, IsPlaceholder, TextOf;
    ThreeParts(body[..start], kept + newLines + ["", ""], body[end..]);
    ThreeParts(body[..start], body[start..end], body[end..]);
  }

  lemma Sliced(body: seq<string>, start: nat, end: nat)
    requires start <= end <= |body|
    ensures body == body[..start] + body[start..end] + body[end..]
  {
  }

  lemma RewrittenHasNoRc(kept: seq<string>, newLines: seq<string>)
    requires (forall l :: l in kept ==> !IsPlaceholder(l)) && forall l :: l in newLines ==> !IsRcTask(l)
    ensures RcLinesOf(kept + newLines + ["", ""]) == []
  {
    EmptyIsNoText();
    hide IsPlaceholder, RcLinesOf;
    RcIsPlaceholder("");
    forall l | l in kept ensures !IsRcTask(l) { RcIsPlaceholder(l); }
    hide IsRcTask;
    NoRcLines(kept);
    NoRcLines(newLines);
    NoRcLines(["", ""]);
    ThreeParts(kept, newLines, ["", ""]);
  }

  /** Rewriting the section adds and removes no candidate's task outside it. */
  lemma ExtendedRcLines(body: Body, refs: seq<AddRef>)
    requires Section(body).Some? && GoodRefs(refs) && RcOutside(body)
    ensures AddBackports(body, AddedItems(refs)).Some?
    ensures RcLinesOf(SplitLines(AddBackports(body, AddedItems(refs)).value)) == RcLinesOf(SplitLines(body))
  {
    var items := AddedItems(refs);
    var start, end, kept := AddBackportsKeeps(body, items);
    var (after, newLines) := (AddBackports(body, items).value, ItemLines(Unlisted(items, Names(Backports(body)))));
    SplitRcLines(body);
    SplitRcLines(after);
    hide RcLinesOf, IsRcTask, AddBackports, ItemLines, Unlisted, Names, Backports, AddedItems, IsExtended, Section,
         SplitLines, GoodRefs;
    forall l | l in newLines ensures !IsRcTask(l) {
      AddedLinesAre(body, refs, l);
      ItemLineIs(l);
    }
    PartRcLines(body, after, newLines, start, end, kept);
  }

  lemma ThreeParts(a: seq<string>, b: seq<string>, c: seq<string>)
    ensures RcLinesOf(a + b + c) == RcLinesOf(a) + RcLinesOf(b) + RcLinesOf(c)
  {
    RcLinesConcat(a + b, c);
    RcLinesConcat(a, b);
  }

  lemma ExtendedHeaders(body: Body, refs: seq<AddRef>)
    requires GoodRefs(refs) && AddBackports(body, AddedItems(refs)).Some? && NoTaskHeaders(body)
    ensures NoTaskHeaders(AddBackports(body, AddedItems(refs)).value)
  {
    var after := AddBackports(body, AddedItems(refs)).value;
    EmptyLineParses();
    hide AddBackports, AddedItems, ItemLines, Unlisted, Names, Backports, IsHeader, ParseLine;
    forall l | l in after && IsHeader(l) ensures ParseLine(l).None? {
      AddBackportsLines(body, AddedItems(refs), l);
      if l in ItemLines(Unlisted(AddedItems(refs), Names(Backports(body)))) {
        AddedLinesAre(body, refs, l);
        ItemLineIs(l);
      }
    }
  }

  /** `--add` appends exactly the new backports to the listed ones, lists each added
      pull request's sync task, and leaves an open candidate: the one there is, or
      else one more, with the next number. */
  lemma AddAllIs(body: Body, refs: seq<AddRef>)
    requires GoodRefs(refs) && AddAll(body, refs).Some?
    ensures var (after, lines) := (AddAll(body, refs).value, SplitLines(body));
            && ListsSyncs(SplitLines(after), refs) && HasOpenRc(SplitLines(after))
            && (NoTaskHeaders(body) ==>
                  Backports(after)
                  == Backports(body) + BackportsIn(ItemLines(Unlisted(AddedItems(refs), Names(Backports(body))))))
            && (RcOutside(body) ==>
                  if HasOpenRc(lines) then RcLinesOf(SplitLines(after)) == RcLinesOf(lines)
                  else IsNextRc(lines, NextRcTask(lines))
                       && RcLinesOf(SplitLines(after)) == RcLinesOf(lines) + [RcLine(NextRcTask(lines))])
  {
    var added, synced := AddAllSteps(body, refs);
    ExtendedKeeps(body, refs);
    SyncsAdded(added, refs);
    NextRcTaskIs(SplitLines(body));
    PendingRcIs(SplitLines(synced));
    KeptElse(added, synced);
    hide *;
    if RcOutside(body) { SameCandidates(SplitLines(synced), SplitLines(body)); }
    if !HasOpenRc(SplitLines(synced)) { OpenedRc(synced, refs); }
  }

  lemma KeptElse(body: Body, after: Body)
    requires KeepsAllElse(body, after)
    ensures RcLinesOf(SplitLines(after)) == RcLinesOf(SplitLines(body))
    ensures NoTaskHeaders(body) ==> NoTaskHeaders(after) && Backports(after) == Backports(body)
  {
  }

  lemma AddAllSteps(body: Body, refs: seq<AddRef>) returns (added: Body, synced: Body)
    requires AddAll(body, refs).Some?
    ensures AddBackports(body, AddedItems(refs)) == Some(added) && AddSyncTasks(added, refs) == Some(synced)
    ensures AddAll(body, refs) == if HasPendingRc(SplitLines(synced)) then Some(synced)
                                  else AddRcTask(synced, NextRcTask(SplitLines(synced)))
    ensures Section(body).Some?
  {
    assert AddedItems(refs) == seq(|refs|, i requires 0 <= i < |refs| => AddedItem(refs[i]));
    hide AddedItems, AddSyncTasks, ItemLines, Unlisted, Names, Backports, HasPendingRc, AddRcTask, NextRcTask, Section,
         NewSection;
    added := AddBackports(body, AddedItems(refs)).value;
    synced := AddSyncTasks(added, refs).value;
  }

  lemma ExtendedKeeps(body: Body, refs: seq<AddRef>)
    requires Section(body).Some? && GoodRefs(refs)
    ensures AddBackports(body, AddedItems(refs)).Some?
    ensures var added := AddBackports(body, AddedItems(refs)).value;
            && (NoTaskHeaders(body) ==>
                  NoTaskHeaders(added)
                  && Backports(added)
                     == Backports(body) + BackportsIn(ItemLines(Unlisted(AddedItems(refs), Names(Backports(body))))))
            && (RcOutside(body) ==> RcLinesOf(SplitLines(added)) == RcLinesOf(SplitLines(body)))
  {
    AddBackportsAppends(body, AddedItems(refs));
    hide AddedItems, AddBackports, ItemLines, Unlisted, Names, Backports, BackportsIn, NoTaskHeaders, RcOutside,
         RcLinesOf,
         GoodRefs, SplitLines, Section;
    if NoTaskHeaders(body) { ExtendedHeaders(body, refs); }
    if RcOutside(body) { ExtendedRcLines(body, refs); }
  }

  lemma OpenedRc(body: Body, refs: seq<AddRef>)
    requires var n := NextRcTask(SplitLines(body)); AddRcTask(body, n).Some? && ListsSyncs(SplitLines(body), refs)
    ensures var n := NextRcTask(SplitLines(body));
            var after := AddRcTask(body, n).value;
            && HasOpenRc(SplitLines(after)) && ListsSyncs(SplitLines(after), refs)
            && RcLinesOf(SplitLines(after)) == RcLinesOf(SplitLines(body)) + [RcLine(n)]
            && (NoTaskHeaders(body) ==> Backports(after) == Backports(body))
  {
    var n := NextRcTask(SplitLines(body));
    var after := AddRcTask(body, n).value;
    RcAdded(body, n);
    AddedRcLine(body, n);
    RcLineIsTask(n);
    hide AddRcTask, RcLinesOf, ListsSyncs, NoTaskHeaders, Backports, RcLine, NextRcTask, IsRcTask, SplitLines;
    SyncsKept(SplitLines(body), SplitLines(after), refs);
    var lines := RcLinesOf(SplitLines(body));
    LastRcStep(lines, RcLine(n), Rc(n));
    ByRcLines(SplitLines(after), n);
    HasOpenTaskIs(SplitLines(after), n);
    NewTaskIsOpen(n);
    hide HasOpenTask, LastOfKind;
    assert HasOpenTask(SplitLines(after), n);
  }

  lemma NewTaskIsOpen(n: nat)
    ensures !AlreadyTagged(Task(false, "Tag RC" + FromNat(n), []))
  {
    assert Get([], "status") == None;
  }

  lemma SyncsKept(lines: seq<string>, others: seq<string>, refs: seq<AddRef>)
    requires (forall l :: l in lines && l != "" ==> l in others) && ListsSyncs(lines, refs)
    ensures ListsSyncs(others, refs)
  {
    hide NamesTask, Lower;
    forall r | r in refs && r.PrNum?
      ensures exists l :: l in others && NamesTask(l, Lower("Sync Changelog #" + FromNat(r.n)))
    {
      var l :| l in lines && NamesTask(l, Lower("Sync Changelog #" + FromNat(r.n)));
      EmptyNamesNothing(Lower("Sync Changelog #" + FromNat(r.n)));
    }
  }

  // ------------------------------------------------------------ when `--add` works

  /** The final task is listed, and not first. */
  ghost predicate HasFinal(lines: seq<string>) {
    && lines != [] && !NamesTask(lines[0], "tag final")
    && exists i :: 0 < i < |lines| && NamesTask(lines[i], "tag final")
  }

  lemma FinalHasPlace(body: Body, n: nat)
    requires HasFinal(SplitLines(body))
    ensures AddSyncTask(body, n).Some? && HasFinal(SplitLines(AddSyncTask(body, n).value))
    ensures AddRcTask(body, n).Some?
  {
    var lines := SplitLines(body);
    FirstNamedIs(lines, "Tag Final");
    LowerNames();
    AfterLastSyncIs(lines);
    AfterLastRcIs(lines);
    AddRcTaskInserts(body, n, 0);
    AddSyncTaskInserts(body, n, 0);
    hide AddRcTask, AddSyncTask, NamesTask, FirstNamed, AfterLastSync, AfterLastRc, ListsRc, ListsSync, IsGrown, Lower,
         IsNewTask, KindOf;
    var f := FirstNamed(lines, "Tag Final");
    assert 0 < f < |lines| && IsFirst(lines, f, "tag final");
    assert RcPlace(lines, if AfterLastRc(lines) > 0 then AfterLastRc(lines) else f);
    var p := if AfterLastSync(lines) > 0 then AfterLastSync(lines) else f;
    assert SyncPlace(lines, p);
    AddSyncTaskInserts(body, n, p);
    var after := AddSyncTask(body, n).value;
    if after != body { FinalStays(body, after, p, SyncLine(n)); }
  }

  lemma FinalStays(body: Body, after: Body, k: nat, line: string)
    requires HasFinal(SplitLines(body)) && IsGrown(body, after, k, line) && k > 0
    ensures HasFinal(SplitLines(after))
  {
    hide NamesTask, KeepsSection, Backports, HasFinal, SplitLines;
    FinalInserted(SplitLines(body), after, k, line);
    FinalSplit(after);
  }

  lemma FinalInserted(lines: seq<string>, after: seq<string>, k: nat, line: string)
    requires HasFinal(lines) && IsInserted(lines, after, k, line) && k > 0
    ensures HasFinal(after)
  {
    hide NamesTask;
    var i :| 0 < i < |lines| && NamesTask(lines[i], "tag final");
    var j := if i < k then i else i + 1;
    assert after[..k][0] == after[0] && lines[..k][0] == lines[0];
    assert i < k ==> after[..k][i] == after[i] && lines[..k][i] == lines[i];
    assert i >= k ==> after[k + 1..][i - k] == after[i + 1] && lines[k..][i - k] == lines[i];
    assert NamesTask(after[j], "tag final");
  }

  lemma FinalSplit(body: Body)
    requires HasFinal(body)
    ensures HasFinal(SplitLines(body))
  {
    EmptyNamesNothing("tag final");
    hide NamesTask;
    var i :| 0 < i < |body| && NamesTask(body[i], "tag final");
    assert SplitLines(body)[i] == body[i];
  }

  lemma {:induction false} SyncsWork(body: Body, refs: seq<AddRef>)
    requires HasFinal(SplitLines(body))
    ensures AddSyncTasks(body, refs).Some? && HasFinal(SplitLines(AddSyncTasks(body, refs).value))
  {
    hide HasFinal, AddSyncTask, SplitLines;
    if refs != [] {
      var (front, last) := (refs[..|refs| - 1], refs[|refs| - 1]);
      SyncsWork(body, front);
      if last.PrNum? { FinalHasPlace(AddSyncTasks(body, front).value, last.n); }
    }
  }

  /** `--add` cannot fail on an issue that lists its final task above its backports,
      below another line. */
  lemma AddAllWorks(body: Body, refs: seq<AddRef>, i: nat)
    requires Section(body).Some? && 0 < i < Section(body).value.0 && NamesTask(body[i], "tag final")
    requires !NamesTask(body[0], "tag final")
    ensures AddAll(body, refs).Some?
  {
    assert AddedItems(refs) == seq(|refs|, j requires 0 <= j < |refs| => AddedItem(refs[j]));
    var start, end, kept := AddBackportsKeeps(body, AddedItems(refs));
    var added := AddBackports(body, AddedItems(refs)).value;
    assert added[i] == body[i] && added[0] == body[0];
    hide AddedItems, AddBackports, AddSyncTasks, HasPendingRc, AddRcTask, NextRcTask, Section, NamesTask, IsExtended,
         ItemLines, Unlisted, Names, Backports, SplitLines;
    FinalSplit(added);
    SyncsWork(added, refs);
    hide SplitLines, HasFinal;
    var synced := AddSyncTasks(added, refs).value;
    FinalHasPlace(synced, NextRcTask(SplitLines(synced)));
  }

  // ---------------------------------------------------------- pull requests added

  /** A reference is a numeral, with or without a `#`, and means its number. */
  lemma RefsAre(name: string, n: nat)
    ensures IsPrRef(name) <==> IsNumeral(name) || (|name| > 1 && name[0] == '#' && IsNumeral(name[1..]))
    ensures IsPrRef("#" + FromNat(n)) && PrNumber("#" + FromNat(n)) == n
    ensures IsPrRef(FromNat(n)) && PrNumber(FromNat(n)) == n
  {
    Decimal.RoundTrip(n);
    PrNumRef(n);
    assert ("#" + FromNat(n))[1..] == FromNat(n);
    assert !IsDigit('#');
  }

  ghost predicate AllNumbers(refs: seq<AddRef>) {
    forall i :: 0 <= i < |refs| ==> refs[i].PrNum?
  }

  /** A pull request that is not listed, named here for the first time. */
  ghost predicate IsNewNumber(refs: seq<AddRef>, listed: seq<Task>, k: nat)
    requires AllNumbers(refs)
  {
    && k < |refs| && (forall t :: t in listed ==> t.name != "#" + FromNat(refs[k].n))
    && forall j :: 0 <= j < k ==> refs[j].n != refs[k].n
  }

  lemma NumberText(n: nat, m: nat)
    ensures "#" + FromNat(n) == "#" + FromNat(m) <==> n == m
  {
    Decimal.RoundTrip(n);
    Decimal.RoundTrip(m);
    assert ("#" + FromNat(n))[1..] == FromNat(n) && ("#" + FromNat(m))[1..] == FromNat(m);
  }

  lemma NewNumberIs(refs: seq<AddRef>, listed: seq<Task>, k: nat)
    requires AllNumbers(refs)
    ensures IsNew(AddedItems(refs), Names(listed), k) <==> IsNewNumber(refs, listed, k)
  {
    var items := AddedItems(refs);
    forall j | 0 <= j < |refs| ensures Normalized(items[j].ref) == "#" + FromNat(refs[j].n) {
      PrNumRef(refs[j].n);
    }
    hide Normalized, AddedItems;
    if k < |refs| {
      forall j | 0 <= j < k
        ensures Normalized(items[j].ref) != Normalized(items[k].ref) <==> refs[j].n != refs[k].n
      {
        NumberText(refs[j].n, refs[k].n);
      }
      NameListed(listed, "#" + FromNat(refs[k].n));
    }
  }

  lemma NameListed(listed: seq<Task>, name: string)
    ensures name in Names(listed) <==> exists t :: t in listed && t.name == name
  {
  }

  /** Adding pull requests lists each one that is not listed yet once, unchecked and
      without metadata, in their order behind the ones that are. A reference that is
      no pull request is noted as invalid. */
  lemma NumbersAdded(body: Body, refs: seq<AddRef>) returns (at: seq<nat>)
    requires Section(body).Some? && AllNumbers(refs)
    ensures IsIncreasing(at) && forall k: nat :: k in at <==> IsNewNumber(refs, Backports(body), k)
    ensures forall i :: 0 <= i < |at| ==> at[i] < |refs|
    ensures AddBackports(body, AddedItems(refs)).Some?
    ensures Backports(AddBackports(body, AddedItems(refs)).value)
            == Backports(body)
               + seq(|at|, i requires 0 <= i < |at| => Task(false, "#" + FromNat(refs[at[i]].n), []))
    ensures forall ref :: AddedItem(Invalid(ref)) == NewItem(ref, [Pair("status", "error-invalid-pr")])
  {
    var (items, existing) := (AddedItems(refs), Names(Backports(body)));
    at := UnlistedAre(items, existing);
    AddBackportsAppends(body, items);
    NumberTasksListed(refs, Unlisted(items, existing), at);
    InvalidIsNoted();
    hide *;
    forall k: nat ensures k in at <==> IsNewNumber(refs, Backports(body), k) {
      NewNumberIs(refs, Backports(body), k);
    }
  }

  lemma InvalidIsNoted()
    ensures forall ref :: AddedItem(Invalid(ref)) == NewItem(ref, [Pair("status", "error-invalid-pr")])
  {
  }

  lemma NumberTasksListed(refs: seq<AddRef>, taken: seq<NewItem>, at: seq<nat>)
    requires AllNumbers(refs) && AreTaken(AddedItems(refs), taken, at)
    ensures IsIncreasing(at) && forall i :: 0 <= i < |at| ==> at[i] < |refs|
    ensures BackportsIn(ItemLines(taken))
            == seq(|at|, i requires 0 <= i < |at| => Task(false, "#" + FromNat(refs[at[i]].n), []))
  {
    forall i | 0 <= i < |at|
      ensures at[i] < |refs| && taken[i] == NewItem("#" + FromNat(refs[at[i]].n), []) && IsPrRef(taken[i].ref)
    {
      PrNumRef(refs[at[i]].n);
    }
    assert GoodMetadata([]);
    hide BackportsIn, ItemLines, IsPrRef, GoodMetadata, FromNat, Normalized, AddedItems;
    ItemLinesListed(taken);
  }
}
