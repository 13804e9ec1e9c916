/** The whole body of a release tracking issue, as its lines: the task state,
    the backports section, and the helpers that insert tasks. */
module IssueBody {
  import opened Text
  import opened Decimal
  import opened Checklist

  /** `body.split("\n")`: never empty, and ending in "" after a final newline. */
  type Body = lines: seq<string> | lines != [] witness [""]

  /** `body.splitlines()`. */
  function SplitLines(body: Body): (lines: seq<string>)
  {
    if body[|body| - 1] == "" then body[..|body| - 1] else body
  }

  /** `"\n".join(lines)`. */
  function Joined(lines: seq<string>): Body {
    if lines == [] then [""] else lines
  }

  /** `update_task_in_body`, from text to text. */
  function Update(body: Body, task: string, checked: bool, md: Metadata): Option<Body> {
    match UpdateTask(SplitLines(body), task, checked, md)
    case None => None
    case Some(lines) => Some(Joined(lines))
  }

  // ------------------------------------------------------------- task kinds

  datatype Kind = Preparing | Branching | Finalizing | Rc(n: nat) | Sync(n: nat) | Other

  /** The digits after `prefix`, letter case ignored: `re.match(prefix + r"(\d+)", name)`. */
  function NumberAfter(name: string, prefix: string): Option<nat> {
    if |prefix| <= |name| && Lower(name[..|prefix|]) == Lower(prefix) && DigitRun(name[|prefix|..]) > 0 then
      var rest := name[|prefix|..];
      Some(ToNat(rest[..DigitRun(rest)]))
    else None
  }

  function KindOf(name: string): Kind {
    var low := Lower(name);
    if Contains(low, "prepare release") then Preparing
    else if Contains(low, "create release branch") then Branching
    else if Contains(low, "tag final") then Finalizing
    else match NumberAfter(name, "Tag RC")
      case Some(n) => Rc(n)
      case None =>
        match NumberAfter(name, "Sync Changelog #")
        case Some(n) => Sync(n)
        case None => Other
  }

  function LineKind(line: string): Kind {
    match ParseLine(line)
    case None => Other
    case Some(t) => KindOf(t.name)
  }

  /** The task a checklist holds for a kind: its last line of that kind. */
  function LastOfKind(lines: seq<string>, kind: Kind): Option<Task> {
    if lines == [] then None
    else if LineKind(lines[|lines| - 1]) == kind then ParseLine(lines[|lines| - 1])
    else LastOfKind(lines[..|lines| - 1], kind)
  }

  datatype ChecklistState = ChecklistState(
    prepare: Option<Task>, createBranch: Option<Task>, tagFinal: Option<Task>,
    rcTags: map<nat, Task>, syncs: map<nat, Task>)

  /** `parse_checklist_state`; None stands for the default, unchecked task
      without status. */
  method ParseChecklistState(lines: seq<string>) returns (state: ChecklistState)
    ensures state.prepare == LastOfKind(lines, Preparing)
    ensures state.createBranch == LastOfKind(lines, Branching)
    ensures state.tagFinal == LastOfKind(lines, Finalizing)
    ensures forall n: nat :: LastOfKind(lines, Rc(n)) == if n in state.rcTags then Some(state.rcTags[n]) else None
    ensures forall n: nat :: LastOfKind(lines, Sync(n)) == if n in state.syncs then Some(state.syncs[n]) else None
  {
    hide ParseLine, KindOf;
    state := ChecklistState(None, None, None, map[], map[]);
    for i := 0 to |lines|
      invariant state.prepare == LastOfKind(lines[..i], Preparing)
      invariant state.createBranch == LastOfKind(lines[..i], Branching)
      invariant state.tagFinal == LastOfKind(lines[..i], Finalizing)
      invariant forall n: nat :: LastOfKind(lines[..i], Rc(n)) == if n in state.rcTags then Some(state.rcTags[n])
                else None
      invariant forall n: nat :: LastOfKind(lines[..i], Sync(n)) == if n in state.syncs then Some(state.syncs[n])
                else None
    {
      assert lines[..i + 1][..i] == lines[..i];
      var parsed := ParseLine(lines[i]);
      if parsed.None? { continue; }
      match KindOf(parsed.value.name) {
        case Preparing => state := state.(prepare := parsed);
        case Branching => state := state.(createBranch := parsed);
        case Finalizing => state := state.(tagFinal := parsed);
        case Rc(n) => state := state.(rcTags := state.rcTags[n := parsed.value]);
        case Sync(n) => state := state.(syncs := state.syncs[n := parsed.value]);
        case Other =>
      }
    }
    assert lines[..|lines|] == lines;
  }

  // --------------------------------------------------------------- backports

  /** `^#?\d+$`. */
  predicate IsPrRef(name: string) {
    IsNumeral(if name != "" && name[0] == '#' then name[1..] else name)
  }

  /** `int(pr_ref.lstrip("#"))`. */
  function PrNumber(name: string): nat
    requires IsPrRef(name)
  {
    ToNat(if name[0] == '#' then name[1..] else name)
  }

  /** The backport a line lists; placeholders such as `#PR_NUMBER` list none. */
  function Backport(line: string): Option<Task> {
    match ParseLine(line)
    case None => None
    case Some(t) => if IsPrRef(t.name) then Some(t) else None
  }

  function Status(t: Task): string {
    match Get(t.metadata, "status")
    case None => "pending"
    case Some(s) => s
  }

  function BackportsIn(lines: seq<string>): seq<Task> {
    if lines == [] then []
    else
      var before := BackportsIn(lines[..|lines| - 1]);
      match Backport(lines[|lines| - 1])
      case None => before
      case Some(t) => before + [t]
  }

  predicate IsHeader(line: string) {
    EndsWith(Lower(line), "## backports")
  }

  predicate IsSectionBreak(line: string) {
    "##" <= line || "---" <= line
  }

  /** The first header line that another line follows, or |body|. */
  function HeaderIndex(body: seq<string>): (i: nat)
    ensures i <= |body|
    ensures i < |body| ==> i + 1 < |body|
  {
    if |body| < 2 then |body|
    else if IsHeader(body[0]) then 0
    else 1 + HeaderIndex(body[1..])
  }

  /** How many lines come before the first section break. */
  function Unbroken(lines: seq<string>): (n: nat)
    ensures n <= |lines|
  {
    if lines == [] || IsSectionBreak(lines[0]) then 0 else 1 + Unbroken(lines[1..])
  }

  /** `## Backports\n(.*?)(?=\n##|\n---|\Z)`: where the section's lines start and
      end. The look-ahead needs a newline the header did not consume, so the
      first line of the section never ends it. */
  function Section(body: Body): (r: Option<(nat, nat)>)
    ensures r.Some? ==> 1 <= r.value.0 < r.value.1 <= |body|
  {
    var h := HeaderIndex(body);
    if h == |body| then None
    else Some((h + 1, h + 2 + Unbroken(body[h + 2..])))
  }

  function Backports(body: Body): seq<Task> {
    match Section(body)
    case None => []
    case Some((start, end)) => BackportsIn(body[start..end])
  }

  method ParseBackports(body: Body) returns (items: seq<Task>)
    ensures items == Backports(body)
  {
    hide Section, ParseLine, IsPrRef;
    items := [];
    var section := Section(body);
    if section.None? { return; }
    var lines := body[section.value.0..section.value.1];
    for i := 0 to |lines|
      invariant items == BackportsIn(lines[..i])
    {
      assert lines[..i + 1][..i] == lines[..i];
      var parsed := ParseLine(lines[i]);
      if parsed.Some? && IsPrRef(parsed.value.name) {
        items := items + [parsed.value];
      }
    }
    assert lines[..|lines|] == lines;
  }

  lemma {:induction false} UnbrokenRun(lines: seq<string>)
    ensures forall l :: l in lines[..Unbroken(lines)] ==> !IsSectionBreak(l)
    ensures lines[Unbroken(lines)..] == [] || IsSectionBreak(lines[Unbroken(lines)..][0])
  {
    hide IsSectionBreak;
    if lines != [] && !IsSectionBreak(lines[0]) {
      UnbrokenRun(lines[1..]);
      assert lines[..Unbroken(lines)] == [lines[0]] + lines[1..][..Unbroken(lines[1..])];
      assert lines[Unbroken(lines)..] == lines[1..][Unbroken(lines[1..])..];
    }
  }

  /** A section starts after a header, runs up to a break or the end, and holds
      no break after its first line. */
  lemma SectionExtent(body: Body)
    requires Section(body).Some?
    ensures var (start, end) := Section(body).value;
            && start == HeaderIndex(body) + 1
            && (forall l :: l in body[start + 1..end] ==> !IsSectionBreak(l))
            && (body[end..] == [] || IsSectionBreak(body[end..][0]))
  {
    hide IsSectionBreak, IsHeader;
    var (start, end) := Section(body).value;
    var after := body[start + 1..];
    UnbrokenRun(after);
    assert after[..Unbroken(after)] == body[start + 1..end];
    assert after[Unbroken(after)..] == body[end..];
  }

  lemma {:induction false} BackportsInConcat(a: seq<string>, b: seq<string>)
    ensures BackportsIn(a + b) == BackportsIn(a) + BackportsIn(b)
  {
    hide Backport;
    if b == [] {
      assert a + b == a;
    } else {
      BackportsInConcat(a, b[..|b| - 1]);
      assert (a + b)[..|a + b| - 1] == a + b[..|b| - 1];
    }
  }

  lemma {:induction false} BackportListed(lines: seq<string>, t: Task)
    requires t in BackportsIn(lines)
    ensures exists line :: line in lines && Backport(line) == Some(t)
  {
    hide Backport;
    if t in BackportsIn(lines[..|lines| - 1]) {
      BackportListed(lines[..|lines| - 1], t);
    }
  }

  // ---------------------------------------------------------------- inserting

  predicate IsRcLine(line: string) {
    var t := ParseLine(line);
    t.Some? && NumberAfter(t.value.name, "Tag RC").Some?
  }

  /** The index after the last RC line, or 0 when there is none. */
  function AfterLastRc(lines: seq<string>): (k: nat)
    ensures k <= |lines|
  {
    if lines == [] then 0
    else if IsRcLine(lines[|lines| - 1]) then |lines|
    else AfterLastRc(lines[..|lines| - 1])
  }

  /** The index of the first line naming `task`, or |lines|. */
  function FirstNamed(lines: seq<string>, task: string): (k: nat)
    ensures k <= |lines|
  {
    if lines == [] || Named(lines[0], task) then 0 else 1 + FirstNamed(lines[1..], task)
  }

  /** Where `add_rc_task_to_body` inserts. Before `Tag Final` only when that
      line is not the first one. */
  function RcPosition(lines: seq<string>): Option<nat> {
    var k := AfterLastRc(lines);
    var f := FirstNamed(lines, "Tag Final");
    if k > 0 then Some(k)
    else if 0 < f < |lines| then Some(f)
    else None
  }

  function RcTaskName(n: nat): string {
    "Tag RC" + FromNat(n)
  }

  function AddRcTask(body: Body, n: nat): Option<Body> {
    var lines := SplitLines(body);
    match RcPosition(lines)
    case None => None
    case Some(k) => if k <= |lines| then Some(Joined(lines[..k] + ["- [ ] " + RcTaskName(n)] + lines[k..])) else None
  }

  method AddRcTaskToBody(body: Body, n: nat) returns (updated: Option<Body>)
    ensures updated == AddRcTask(body, n)
  {
    hide IsRcLine, Named;
    var lines := SplitLines(body);
    var last := -1;
    for i := 0 to |lines|
      invariant last + 1 == AfterLastRc(lines[..i])
    {
      assert lines[..i + 1][..i] == lines[..i];
      if IsRcLine(lines[i]) { last := i; }
    }
    assert lines[..|lines|] == lines;
    if last == -1 {
      var final := FindNamed(lines, "Tag Final");
      if final < |lines| { last := final - 1; }
    }
    if last == -1 { return None; }
    var k := last + 1;
    updated := Some(Joined(lines[..k] + ["- [ ] " + RcTaskName(n)] + lines[k..]));
  }

  lemma NewTaskParses(name: string)
    requires name != "" && Trimmed(name) && '|' !in name
    ensures ParseLine("- [ ] " + name) == Some(Task(false, name, []))
  {
    Checklist.RoundTrip(false, name, []);
    assert FormatLine(false, name, []) == "- [ ] " + name;
    hide *;
  }

  lemma RcNameIsGood(n: nat)
    ensures RcTaskName(n) != "" && Trimmed(RcTaskName(n)) && '|' !in RcTaskName(n)
    ensures KindOf(RcTaskName(n)) == Rc(n)
    ensures !IsPrRef(RcTaskName(n))
  {
    var d := FromNat(n);
    var name := RcTaskName(n);
    assert name[|name| - 1] == d[|d| - 1];
    assert forall i :: 0 <= i < |name| ==> name[i] == (if i < 6 then "Tag RC"[i] else d[i - 6]);
    assert name[0] == 'T' && !IsDigit('T');
    DigitRunAll(d, "");
    assert d + "" == d && name[..6] == "Tag RC" && name[6..] == d;
    NumberedKind(n);
    NotContained(name);
  }

  lemma NumberedKind(n: nat)
    ensures ToNat(FromNat(n)[..|FromNat(n)|]) == n
  {
    Decimal.RoundTrip(n);
    assert FromNat(n)[..|FromNat(n)|] == FromNat(n);
  }

  /** No RC task name contains one of the three fixed task names. */
  lemma NotContained(name: string)
    requires "Tag RC" <= name && forall i :: 6 <= i < |name| ==> IsDigit(name[i])
    ensures !Contains(Lower(name), "prepare release")
    ensures !Contains(Lower(name), "create release branch")
    ensures !Contains(Lower(name), "tag final")
  {
    var low := Lower(name);
    assert forall i :: 6 <= i < |low| ==> IsDigit(low[i]);
    forall i | 0 <= i <= |low|
      ensures !("prepare release" <= low[i..]) && !("create release branch" <= low[i..]) && !("tag final" <= low[i..])
    {
      if |low| - i >= 9 {
        assert low[i..][8] == low[i + 8] && IsDigit(low[i + 8]);
        assert "prepare release"[8] == 'r' && "create release branch"[8] == 'e' && "tag final"[8] == 'l';
      }
    }
  }

  /** Once the RC task has been inserted, marking it done cannot fail. */
  lemma AddedRcTaskFound(body: Body, n: nat)
    requires AddRcTask(body, n).Some?
    ensures HasTask(SplitLines(AddRcTask(body, n).value), RcTaskName(n))
  {
    RcNameIsGood(n);
    NewTaskParses(RcTaskName(n));
    hide ParseLine, KindOf, IsPrRef, RcTaskName, Lower;
    var lines := SplitLines(body);
    var k := RcPosition(lines).value;
    var added := "- [ ] " + RcTaskName(n);
    var updated := lines[..k] + [added] + lines[k..];
    assert updated[k] == added && added != "";
    assert Named(added, RcTaskName(n));
    var split := SplitLines(Joined(updated));
    assert k < |split| && split[k] == added;
  }

  // --------------------------------------------------- adding sync tasks

  predicate IsSyncLine(line: string) {
    var t := ParseLine(line);
    t.Some? && NumberAfter(t.value.name, "Sync Changelog #").Some?
  }

  function AfterLastSync(lines: seq<string>): (k: nat)
    ensures k <= |lines|
  {
    if lines == [] then 0
    else if IsSyncLine(lines[|lines| - 1]) then |lines|
    else AfterLastSync(lines[..|lines| - 1])
  }

  /** Where `add_sync_changelog_task_to_body` inserts: after the last sync task,
      else before `Tag Final`, else after `Create Release branch`. */
  function SyncPosition(lines: seq<string>): (p: Option<nat>)
    ensures p.Some? ==> p.value <= |lines|
  {
    var k := AfterLastSync(lines);
    var f := FirstNamed(lines, "Tag Final");
    var c := FirstNamed(lines, "Create Release branch");
    if k > 0 then Some(k)
    else if 0 < f < |lines| then Some(f)
    else if c < |lines| then Some(c + 1)
    else None
  }

  function SyncTaskName(n: nat): string {
    "Sync Changelog #" + FromNat(n)
  }

  lemma SyncNameIsGood(n: nat)
    ensures SyncTaskName(n) != "" && Trimmed(SyncTaskName(n)) && '|' !in SyncTaskName(n)
    ensures KindOf(SyncTaskName(n)) == Sync(n)
    ensures !IsPrRef(SyncTaskName(n))
  {
    var d := FromNat(n);
    var name := SyncTaskName(n);
    assert name[|name| - 1] == d[|d| - 1] && name[0] == 'S' && !IsDigit('S');
    assert forall i :: 0 <= i < |name| ==> name[i] == (if i < 16 then "Sync Changelog #"[i] else d[i - 16]);
    DigitRunAll(d, "");
    assert d + "" == d && name[..16] == "Sync Changelog #" && name[16..] == d;
    NumberedKind(n);
    SyncNotContained(name);
    assert Lower(name[..6])[0] == 's' && Lower("Tag RC")[0] == 't';
  }

  /** No sync task name contains one of the three fixed task names. */
  lemma SyncNotContained(name: string)
    requires "Sync Changelog #" <= name && forall i :: 16 <= i < |name| ==> IsDigit(name[i])
    ensures !Contains(Lower(name), "prepare release")
    ensures !Contains(Lower(name), "create release branch")
    ensures !Contains(Lower(name), "tag final")
  {
    var low := Lower(name);
    forall i | 0 <= i < |low|
      ensures low[i] != 'p' && low[i] != 't' && (low[i] == 'c' && i + 1 < |low| ==> low[i + 1] != 'r')
    {
      if i < 16 { assert name[i] == "Sync Changelog #"[i]; }
      if i < 15 { assert name[i + 1] == "Sync Changelog #"[i + 1]; }
    }
    hide Lower;
    forall i | 0 <= i <= |low|
      ensures !("prepare release" <= low[i..]) && !("create release branch" <= low[i..]) && !("tag final" <= low[i..])
    {
      if |low| - i >= 2 {
        assert low[i..][0] == low[i] && low[i..][1] == low[i + 1];
        assert "prepare release"[0] == 'p' && "create release branch"[0] == 'c' && "create release branch"[1] == 'r';
        assert "tag final"[0] == 't';
      }
    }
  }

  function AddSyncTask(body: Body, n: nat): Option<Body> {
    var lines := SplitLines(body);
    if HasTask(lines, SyncTaskName(n)) then Some(body)
    else match SyncPosition(lines)
      case None => None
      case Some(k) => Some(Joined(lines[..k] + ["- [ ] " + SyncTaskName(n)] + lines[k..]))
  }

  /** `add_sync_changelog_task_to_body`. */
  method AddSyncTaskToBody(body: Body, n: nat) returns (updated: Option<Body>)
    ensures updated == AddSyncTask(body, n)
  {
    hide IsSyncLine, Named;
    var lines := SplitLines(body);
    var last, final, branching := -1, |lines|, |lines|;
    for i := 0 to |lines|
      invariant !HasTask(lines[..i], SyncTaskName(n))
      invariant last + 1 == AfterLastSync(lines[..i])
    {
      assert lines[..i + 1][..i] == lines[..i];
      if Named(lines[i], SyncTaskName(n)) {
        return Some(body);
      }
      if IsSyncLine(lines[i]) { last := i; }
    }
    assert lines[..|lines|] == lines;
    var k := last + 1;
    if k == 0 {
      final := FindNamed(lines, "Tag Final");
      branching := FindNamed(lines, "Create Release branch");
      if 0 < final < |lines| {
        k := final;
      } else if branching < |lines| {
        k := branching + 1;
      } else {
        return None;
      }
    }
    updated := Some(Joined(lines[..k] + ["- [ ] " + SyncTaskName(n)] + lines[k..]));
  }

  method FindNamed(lines: seq<string>, task: string) returns (i: nat)
    ensures i == FirstNamed(lines, task)
  {
    hide Named;
    i := 0;
    while i < |lines| && !Named(lines[i], task)
      invariant i <= |lines|
      invariant i + FirstNamed(lines[i..], task) == FirstNamed(lines, task)
    {
      assert lines[i..][1..] == lines[i + 1..];
      i := i + 1;
    }
  }

  // -------------------------------------------------------- adding backports

  datatype NewItem = NewItem(ref: string, metadata: Metadata)

  /** Numeric references get their `#`. */
  function Normalized(ref: string): string {
    if ref != "" && ref[0] != '#' && IsNumeral(ref) then "#" + ref else ref
  }

  /** The items not listed yet, each reference once. */
  function Unlisted(items: seq<NewItem>, existing: set<string>): seq<NewItem> {
    if items == [] then []
    else
      var ref := Normalized(items[0].ref);
      if ref in existing then Unlisted(items[1..], existing)
      else [NewItem(ref, items[0].metadata)] + Unlisted(items[1..], existing + {ref})
  }

  function ItemLines(items: seq<NewItem>): (lines: seq<string>)
    ensures |lines| == |items|
  {
    seq(|items|, i requires 0 <= i < |items| => FormatLine(false, items[i].ref, items[i].metadata))
  }

  function Names(tasks: seq<Task>): set<string> {
    set t | t in tasks :: t.name
  }

  /** A checklist line that is no backport, such as the template's placeholder. */
  predicate IsPlaceholder(line: string) {
    ParseLine(line).Some? && Backport(line).None?
  }

  function Cleaned(lines: seq<string>): seq<string> {
    if lines == [] then []
    else
      var before := Cleaned(lines[..|lines| - 1]);
      if IsPlaceholder(lines[|lines| - 1]) then before else before + [lines[|lines| - 1]]
  }

  /** `rstrip("\n")` of the joined lines. */
  function DropTrailingEmpty(lines: seq<string>): seq<string> {
    if lines != [] && lines[|lines| - 1] == "" then DropTrailingEmpty(lines[..|lines| - 1]) else lines
  }

  /** The rewritten section. Text that has become empty is still one line. */
  function NewSection(content: seq<string>, newLines: seq<string>): (lines: seq<string>)
    ensures |lines| >= 2
  {
    var kept := DropTrailingEmpty(Cleaned(content));
    (if newLines == [] && kept == [] then [""] else kept + newLines) + ["", ""]
  }

  function Replaced(body: Body, start: nat, end: nat, lines: seq<string>): Body
    requires 0 < start <= end <= |body|
  {
    body[..start] + lines + body[end..]
  }

  /** `add_backports_to_body`; None is the ValueError for a missing section. */
  function AddBackports(body: Body, items: seq<NewItem>): Option<Body> {
    match Section(body)
    case None => None
    case Some((start, end)) =>
      var newLines := ItemLines(Unlisted(items, Names(Backports(body))));
      Some(Replaced(body, start, end, NewSection(SplitLines(body[start..end]), newLines)))
  }

  method AddBackportsToBody(body: Body, items: seq<NewItem>) returns (updated: Option<Body>)
    ensures updated == AddBackports(body, items)
  {
    hide ParseLine, FormatLine, Backport, HeaderIndex, Unbroken;
    var section := Section(body);
    if section.None? { return None; }
    var (start, end) := section.value;
    var cleaned := RemovePlaceholders(SplitLines(body[start..end]));
    var unlisted := SelectUnlisted(items, Names(Backports(body)));
    hide Section, Unlisted, ItemLines, Cleaned, DropTrailingEmpty;
    var kept := DropTrailingEmpty(cleaned);
    var newLines := ItemLines(unlisted);
    if newLines == [] && kept == [] { kept := [""]; }
    var lines := kept + newLines + ["", ""];
    assert lines == NewSection(SplitLines(body[start..end]), newLines);
    updated := Some(Replaced(body, start, end, lines));
  }

  method RemovePlaceholders(content: seq<string>) returns (cleaned: seq<string>)
    ensures cleaned == Cleaned(content)
  {
    hide IsPlaceholder;
    cleaned := [];
    for i := 0 to |content|
      invariant cleaned == Cleaned(content[..i])
    {
      assert content[..i + 1][..i] == content[..i];
      if !IsPlaceholder(content[i]) { cleaned := cleaned + [content[i]]; }
    }
    assert content[..|content|] == content;
  }

  method SelectUnlisted(items: seq<NewItem>, listed: set<string>) returns (unlisted: seq<NewItem>)
    ensures unlisted == Unlisted(items, listed)
  {
    hide Normalized;
    var existing := listed;
    unlisted := [];
    for i := 0 to |items|
      invariant unlisted + Unlisted(items[i..], existing) == Unlisted(items, listed)
    {
      var ref := Normalized(items[i].ref);
      assert items[i..][0] == items[i] && items[i..][1..] == items[i + 1..];
      if ref in existing { continue; }
      existing := existing + {ref};
      unlisted := unlisted + [NewItem(ref, items[i].metadata)];
    }
  }

  lemma {:induction false} CleanedBackports(lines: seq<string>)
    ensures BackportsIn(Cleaned(lines)) == BackportsIn(lines)
    ensures forall l :: l in Cleaned(lines) ==> l in lines
  {
    hide ParseLine, Backport;
    if lines != [] {
      var before := Cleaned(lines[..|lines| - 1]);
      CleanedBackports(lines[..|lines| - 1]);
      BackportsInConcat(before, [lines[|lines| - 1]]);
      assert BackportsIn([lines[|lines| - 1]])
             == match Backport(lines[|lines| - 1]) { case None => [] case Some(t) => [t] } by {
        assert [lines[|lines| - 1]][..0] == [];
      }
    }
  }

  lemma {:induction false} TrailingEmptyBackports(lines: seq<string>)
    ensures BackportsIn(DropTrailingEmpty(lines)) == BackportsIn(lines)
    ensures DropTrailingEmpty(lines) <= lines
  {
    hide ParseLine;
    if lines != [] && lines[|lines| - 1] == "" {
      EmptyLineParses();
      TrailingEmptyBackports(lines[..|lines| - 1]);
    }
  }

  lemma EmptyLineParses()
    ensures ParseLine("") == None && Backport("") == None
    ensures BackportsIn([""]) == []  && BackportsIn(["", ""]) == []
  {
    assert ["", ""][..1] == [""] && [""][..0] == [];
  }

  lemma {:induction false} HeaderKept(body: seq<string>, other: seq<string>, h: nat)
    requires h == HeaderIndex(body) && h + 1 < |body| && h + 1 < |other|
    requires other[..h + 1] == body[..h + 1]
    ensures HeaderIndex(other) == h
  {
    hide IsHeader;
    assert other[0] == other[..h + 1][0] == body[0];
    if h > 0 {
      assert other[1..][..h] == other[..h + 1][1..] == body[1..][..h];
      HeaderKept(body[1..], other[1..], h - 1);
    }
  }

  lemma {:induction false} UnbrokenConcat(a: seq<string>, b: seq<string>)
    requires forall l :: l in a ==> !IsSectionBreak(l)
    requires b == [] || IsSectionBreak(b[0])
    ensures Unbroken(a + b) == |a|
  {
    hide IsSectionBreak;
    if a == [] {
      assert a + b == b;
    } else {
      assert (a + b)[1..] == a[1..] + b;
      UnbrokenConcat(a[1..], b);
    }
  }

  ghost predicate NoBreaks(lines: seq<string>) {
    forall l :: l in lines ==> !IsSectionBreak(l)
  }

  /** What a section's body looks like around it. */
  lemma AroundSection(body: Body)
    requires Section(body).Some?
    ensures var (start, end) := Section(body).value;
            && start == HeaderIndex(body) + 1 < |body|
            && (body[end..] == [] || IsSectionBreak(body[end..][0]))
  {
    SectionExtent(body);
    hide IsSectionBreak;
  }

  /** Replacing a section's lines by lines of which only the first may look like
      a section break gives a body whose section is those lines. */
  lemma SectionReplaced(before: seq<string>, content: seq<string>, rest: seq<string>, body: Body, other: Body)
    requires before != [] && before <= body && |before| == HeaderIndex(body) + 1 < |body|
    requires content != [] && NoBreaks(content[1..]) && (rest == [] || IsSectionBreak(rest[0]))
    requires other == before + content + rest
    ensures Backports(other) == BackportsIn(content)
  {
    hide NoBreaks, IsSectionBreak, HeaderIndex, Section, BackportsIn, Backports;
    SectionOf(before, content, rest, body, other);
    SectionBackports(other, |before|, |before| + |content|);
    assert other[|before|..|before| + |content|] == content;
  }

  lemma SectionBackports(body: Body, start: nat, end: nat)
    requires Section(body) == Some((start, end))
    ensures end <= |body| && start <= end && Backports(body) == BackportsIn(body[start..end])
  {
    hide BackportsIn;
  }

  lemma SectionOf(before: seq<string>, content: seq<string>, rest: seq<string>, body: Body, other: Body)
    requires before != [] && before <= body && |before| == HeaderIndex(body) + 1 < |body|
    requires content != [] && NoBreaks(content[1..]) && (rest == [] || IsSectionBreak(rest[0]))
    requires other == before + content + rest
    ensures Section(other) == Some((|before|, |before| + |content|))
  {
    hide IsSectionBreak, HeaderIndex, Unbroken, Section;
    var h := |before| - 1;
    HeaderKept(body, other, h) by { assert other[..h + 1] == before == body[..h + 1]; }
    UnbrokenConcat(content[1..], rest);
    Dropped(before, content, rest);
    SectionAt(other, h, |content| - 1);
  }

  lemma SectionAt(body: Body, h: nat, n: nat)
    requires h == HeaderIndex(body) && h + 1 < |body| && Unbroken(body[h + 2..]) == n
    ensures Section(body) == Some((h + 1, h + 2 + n))
  {
    hide HeaderIndex, Unbroken;
  }

  lemma Dropped(before: seq<string>, content: seq<string>, rest: seq<string>)
    requires content != []
    ensures (before + content + rest)[|before| + 1..] == content[1..] + rest
  {
  }

  lemma ItemLinesUnbroken(items: seq<NewItem>)
    ensures forall l :: l in ItemLines(items) ==> !IsSectionBreak(l)
  {
    forall i | 0 <= i < |items| ensures !IsSectionBreak(ItemLines(items)[i]) {
      hide FormatPairs;
      var l := FormatLine(false, items[i].ref, items[i].metadata);
      assert l[0] == '-' && l[1] == ' ';
      assert "##"[0] == '#' && "---"[1] == '-';
    }
  }

  /** Adding backports appends exactly the new lines' items and loses, reorders
      or alters none of the listed ones. */
  lemma AddBackportsAppends(body: Body, items: seq<NewItem>)
    requires Section(body).Some?
    ensures AddBackports(body, items).Some?
    ensures Backports(AddBackports(body, items).value) ==
            Backports(body) + BackportsIn(ItemLines(Unlisted(items, Names(Backports(body)))))
  {
    var (start, end) := Section(body).value;
    var newLines := ItemLines(Unlisted(items, Names(Backports(body))));
    ItemLinesUnbroken(Unlisted(items, Names(Backports(body))));
    var content := SplitLines(body[start..end]);
    SectionExtent(body);
    AroundSection(body);
    assert body[start..end][1..] == body[start + 1..end];
    assert Backports(body) == BackportsIn(body[start..end]);
    hide Section, ItemLines, Unlisted, ParseLine, Backport, Backports, HeaderIndex, Unbroken, IsSectionBreak,
         BackportsIn, NewSection;
    SectionRewritten(content, newLines);
    SplitBackports(body[start..end]);
    SectionReplaced(body[..start], NewSection(content, newLines), body[end..], body, AddBackports(body, items).value);
  }

  lemma SplitBackports(lines: Body)
    ensures BackportsIn(SplitLines(lines)) == BackportsIn(lines)
  {
    EmptyLineParses();
    hide ParseLine;
  }

  lemma SectionRewritten(content: seq<string>, newLines: seq<string>)
    requires forall l :: l in newLines ==> !IsSectionBreak(l)
    requires content != [] ==> forall l :: l in content[1..] ==> !IsSectionBreak(l)
    ensures BackportsIn(NewSection(content, newLines)) == BackportsIn(content) + BackportsIn(newLines)
    ensures forall l :: l in NewSection(content, newLines)[1..] ==> !IsSectionBreak(l)
  {
    hide ParseLine, Backport, BackportsIn, IsSectionBreak, Cleaned, DropTrailingEmpty;
    var cleaned := Cleaned(content);
    var kept := DropTrailingEmpty(cleaned);
    CleanedBackports(content);
    TrailingEmptyBackports(cleaned);
    EmptyLineParses();
    BackportsInConcat(kept, newLines);
    BackportsInConcat(kept + newLines, ["", ""]);
    BackportsInConcat([""], ["", ""]);
    CleanedUnbroken(content);
    KeptUnbroken(cleaned, kept, newLines);
  }

  lemma KeptUnbroken(cleaned: seq<string>, kept: seq<string>, newLines: seq<string>)
    requires kept <= cleaned
    requires cleaned != [] ==> forall l :: l in cleaned[1..] ==> !IsSectionBreak(l)
    requires forall l :: l in newLines ==> !IsSectionBreak(l)
    ensures forall l :: l in (kept + newLines + ["", ""])[1..] ==> !IsSectionBreak(l)
    ensures forall l :: l in ([""] + ["", ""])[1..] ==> !IsSectionBreak(l)
  {
    assert !IsSectionBreak("");
    hide IsSectionBreak;
    var lines := kept + newLines + ["", ""];
    forall i | 1 <= i < |lines| ensures !IsSectionBreak(lines[i]) {
      if i < |kept| {
        assert lines[i] == cleaned[i] == cleaned[1..][i - 1];
      }
    }
  }

  lemma {:induction false} CleanedUnbroken(content: seq<string>)
    requires content != [] ==> forall l :: l in content[1..] ==> !IsSectionBreak(l)
    ensures Cleaned(content) != [] ==> forall l :: l in Cleaned(content)[1..] ==> !IsSectionBreak(l)
  {
    hide IsSectionBreak, IsPlaceholder;
    if |content| > 1 {
      var front, last := content[..|content| - 1], content[|content| - 1];
      assert content[1..] == front[1..] + [last];
      CleanedUnbroken(front);
      var before := Cleaned(front);
      if before != [] {
        assert (before + [last])[1..] == before[1..] + [last];
      }
    } else if |content| == 1 {
      assert content[..0] == [];
    }
  }

  lemma {:induction false} AllListed(lines: seq<string>, tasks: seq<Task>)
    requires |lines| == |tasks| && forall i :: 0 <= i < |lines| ==> Backport(lines[i]) == Some(tasks[i])
    ensures BackportsIn(lines) == tasks
  {
    hide Backport;
    if lines != [] {
      AllListed(lines[..|lines| - 1], tasks[..|lines| - 1]);
    }
  }

  /** What the new lines list: each valid reference, unchecked, with its metadata. */
  lemma ItemLinesListed(items: seq<NewItem>)
    requires forall i :: 0 <= i < |items| ==> IsPrRef(items[i].ref) && GoodMetadata(items[i].metadata)
    ensures BackportsIn(ItemLines(items)) ==
            seq(|items|, i requires 0 <= i < |items| => Task(false, items[i].ref, items[i].metadata))
  {
    hide BackportsIn, Backport, IsPrRef, GoodMetadata, FormatLine;
    var tasks := seq(|items|, i requires 0 <= i < |items| => Task(false, items[i].ref, items[i].metadata));
    forall i | 0 <= i < |items| ensures Backport(ItemLines(items)[i]) == Some(tasks[i]) { NewBackport(items[i]); }
    AllListed(ItemLines(items), tasks);
  }

  lemma NewBackport(item: NewItem)
    requires IsPrRef(item.ref) && GoodMetadata(item.metadata)
    ensures Backport(FormatLine(false, item.ref, item.metadata)) == Some(Task(false, item.ref, item.metadata))
  {
    PrRefIsGood(item.ref);
    Checklist.RoundTrip(false, item.ref, item.metadata);
    hide ParseLine, FormatLine, IsPrRef, GoodMetadata;
  }

  lemma PrRefIsGood(name: string)
    requires IsPrRef(name)
    ensures name != "" && Trimmed(name) && '|' !in name
  {
    var d := if name[0] == '#' then name[1..] else name;
    assert forall i :: 0 <= i < |name| ==> name[i] == '#' || IsDigit(name[i]);
    assert !IsSpace('#') && !IsDigit('|');
  }
}
