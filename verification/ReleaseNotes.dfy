/** What process-backports leaves in the tracking issue: the edits it makes, which
    of them are stored, and what each backport's line says in the end. */
module ReleaseNotes {
  import opened Text
  import opened Decimal
  import opened Checklist
  import opened IssueBody
  import opened GitGraph
  import opened ReleaseSteps
  import opened ReleaseIssueSafety
  import opened ReleasePicks

  // ------------------------------------------------------------------ edits

  /** Rewriting every line of that name as one task. */
  datatype Edit = Edit(ref: string, checked: bool, metadata: Metadata)

  predicate IsFor(e: Edit, name: string) {
    Lower(e.ref) == Lower(name)
  }

  /** An edit whose line can be read back. */
  predicate GoodEdit(e: Edit) {
    GoodName(e.ref, e.metadata) && GoodMetadata(e.metadata)
  }

  function LastEdit(edits: seq<Edit>, name: string): Option<Edit> {
    if edits == [] then None
    else if IsFor(edits[|edits| - 1], name) then Some(edits[|edits| - 1])
    else LastEdit(edits[..|edits| - 1], name)
  }

  function Written(e: Edit): Task {
    Task(e.checked, e.ref, e.metadata)
  }

  /** `after` lists what the last edit of its name makes of a line, and is `before`
      where there is none. */
  ghost predicate LineEdited(before: string, after: string, edits: seq<Edit>) {
    match ParseLine(before)
    case None => after == before
    case Some(t) =>
      match LastEdit(edits, t.name)
      case None => after == before
      case Some(e) => after == FormatLine(e.checked, e.ref, e.metadata) && ParseLine(after) == Some(Written(e))
  }

  /** Line by line the edited text; only empty lines may be missing, at the end. */
  ghost predicate IsEdited(before: seq<string>, after: seq<string>, edits: seq<Edit>) {
    && |after| <= |before|
    && (forall i :: |after| <= i < |before| ==> before[i] == "")
    && (forall i :: 0 <= i < |after| ==> LineEdited(before[i], after[i], edits))
  }

  /** The edits that reach the stored issue: saving one saves all before it. */
  function Stored(edits: seq<Edit>, saveFails: set<string>): seq<Edit> {
    if edits == [] then []
    else if edits[|edits| - 1].ref !in saveFails then edits
    else Stored(edits[..|edits| - 1], saveFails)
  }

  function Unchecked(edits: seq<Edit>): nat {
    if edits == [] then 0
    else Unchecked(edits[..|edits| - 1]) + if edits[|edits| - 1].checked then 0 else 1
  }

  lemma LastOfMore(edits: seq<Edit>, e: Edit, name: string)
    ensures LastEdit(edits + [e], name) == if IsFor(e, name) then Some(e) else LastEdit(edits, name)
  {
    assert (edits + [e])[..|edits|] == edits;
  }

  lemma StoredMore(edits: seq<Edit>, e: Edit, saveFails: set<string>)
    ensures Stored(edits + [e], saveFails) == if e.ref in saveFails then Stored(edits, saveFails) else edits + [e]
    ensures Unchecked(edits + [e]) == Unchecked(edits) + if e.checked then 0 else 1
  {
    assert (edits + [e])[..|edits|] == edits;
  }

  lemma {:induction false} LastEditIs(edits: seq<Edit>, name: string)
    ensures match LastEdit(edits, name)
            case None => forall e :: e in edits ==> !IsFor(e, name)
            case Some(e) => e in edits && IsFor(e, name)
  {
    hide IsFor;
    if edits != [] && !IsFor(edits[|edits| - 1], name) {
      LastEditIs(edits[..|edits| - 1], name);
      assert edits == edits[..|edits| - 1] + [edits[|edits| - 1]];
    }
  }

  /** Stored edits are the first ones; an edit that saves is among them. */
  lemma {:induction false} StoredIs(edits: seq<Edit>, saveFails: set<string>)
    ensures Stored(edits, saveFails) <= edits
    ensures forall e :: e in edits && e.ref !in saveFails ==> e in Stored(edits, saveFails)
  {
    if edits != [] {
      StoredIs(edits[..|edits| - 1], saveFails);
      assert edits == edits[..|edits| - 1] + [edits[|edits| - 1]];
    }
  }

  // ----------------------------------------------------- one edit of the text

  lemma LineEditedTwice(before: string, after: string, edits: seq<Edit>, e: Edit)
    requires LineEdited(before, after, edits) && GoodEdit(e)
    ensures LineEdited(before, UpdatedLine(after, e.ref, e.checked, e.metadata), edits + [e])
  {
    Checklist.RoundTrip(e.checked, e.ref, e.metadata);
    hide ParseLine, FormatLine, Lower, LastEdit, GoodName, GoodMetadata;
    var t := ParseLine(before);
    if t.Some? {
      LastOfMore(edits, e, t.value.name);
      LastEditIs(edits, t.value.name);
    }
  }

  lemma BodyEditedTwice(before: seq<string>, after: Body, edits: seq<Edit>, e: Edit, updated: Body)
    requires IsEdited(before, after, edits) && GoodEdit(e)
    requires Update(after, e.ref, e.checked, e.metadata) == Some(updated)
    ensures IsEdited(before, updated, edits + [e])
  {
    hide LineEdited, UpdatedLine, GoodEdit;
    var lines := SplitLines(after);
    assert lines != [] by { hide Named; }
    forall i | 0 <= i < |lines| ensures LineEdited(before[i], updated[i], edits + [e]) {
      LineEditedTwice(before[i], after[i], edits, e);
    }
    hide Named;
    EmptyEdited(before, after, edits);
  }

  lemma NothingEdited(body: seq<string>)
    ensures IsEdited(body, body, [])
  {
    hide ParseLine;
  }

  /** One edit of a text. */
  lemma EditedOnce(body: Body, e: Edit, after: Body)
    requires GoodEdit(e) && Update(body, e.ref, e.checked, e.metadata) == Some(after)
    ensures IsEdited(body, after, [e])
  {
    NothingEdited(body);
    hide Update, IsEdited, GoodEdit;
    BodyEditedTwice(body, body, [], e, after);
    assert [] + [e] == [e];
  }

  /** An empty line stays empty, so one that is dropped was empty before. */
  lemma EmptyEdited(before: seq<string>, after: seq<string>, edits: seq<Edit>)
    requires IsEdited(before, after, edits)
    ensures forall i :: 0 <= i < |after| && after[i] == "" ==> before[i] == ""
  {
    EmptyLineParses();
    hide ParseLine, LastEdit;
    forall i | 0 <= i < |after| && after[i] == "" ensures before[i] == "" {
      assert LineEdited(before[i], after[i], edits);
    }
  }

  ghost predicate IsListed(lines: seq<string>, name: string) {
    exists i :: 0 <= i < |lines| && Named(lines[i], name)
  }

  lemma EmptyUnnamed(name: string)
    ensures !Named("", name)
  {
    EmptyLineParses();
    hide ParseLine;
  }

  lemma LineStaysNamed(before: string, after: string, edits: seq<Edit>, name: string)
    requires LineEdited(before, after, edits) && Named(before, name)
    ensures Named(after, name) && after != "" && before != ""
  {
    EmptyLineParses();
    LastEditIs(edits, ParseLine(before).value.name);
    hide ParseLine, Lower, LastEdit;
  }

  lemma EditedIsListed(before: seq<string>, after: Body, edits: seq<Edit>, name: string)
    requires IsEdited(before, after, edits) && IsListed(before, name)
    ensures HasTask(SplitLines(after), name)
  {
    hide Named, LineEdited;
    var i :| 0 <= i < |before| && Named(before[i], name);
    EmptyUnnamed(name);
    LineStaysNamed(before[i], after[i], edits, name);
    assert SplitLines(after)[i] == after[i];
  }

  // ------------------------------------------------------------- the notes held

  /** The notes hold the text with all edits made, and the stored one. */
  ghost predicate NotesAre(notes: Notes, before: seq<string>, edits: seq<Edit>, env: Env) {
    && IsEdited(before, notes.body, edits) && IsEdited(before, notes.saved, Stored(edits, env.saveFails))
    && notes.failed == Unchecked(edits)
  }

  /** A backport is counted as failed and then noted as such, or noted as done. */
  function Counted(notes: Notes, e: Edit, env: Env): Notes {
    var counted := if e.checked then notes else notes.(failed := notes.failed + 1);
    Noted(counted, e.ref, e.checked, e.metadata, env)
  }

  lemma NotedAre(notes: Notes, before: seq<string>, edits: seq<Edit>, e: Edit, env: Env)
    requires NotesAre(notes, before, edits, env) && GoodEdit(e) && IsListed(before, e.ref)
    ensures NotesAre(Counted(notes, e, env), before, edits + [e], env)
  {
    EditedIsListed(before, notes.body, edits, e.ref);
    StoredMore(edits, e, env.saveFails);
    assert Update(notes.body, e.ref, e.checked, e.metadata).Some? by { hide Named, UpdatedLines, Joined; }
    hide IsEdited, GoodEdit, IsListed, Update, Stored, Unchecked, HasTask;
    BodyEditedTwice(before, notes.body, edits, e, Update(notes.body, e.ref, e.checked, e.metadata).value);
  }

  // ----------------------------------------------------------------- which edits

  /** What the lookup of its pull request makes of a backport. */
  function LookupEdit(t: Task, env: Env): seq<Edit>
    requires IsPrRef(t.name)
  {
    match Resolve(t, env)
    case Failed(status) => [Edit(t.name, false, [Pair("status", status)])]
    case _ => []
  }

  function LookupEdits(items: seq<Task>, env: Env): seq<Edit>
    requires AllPrRefs(items)
  {
    if items == [] then []
    else
      assert AllPrRefs(items[1..]);
      LookupEdit(items[0], env) + LookupEdits(items[1..], env)
  }

  /** Of the backports that ask for a commit the last one. */
  function Asker(items: seq<Task>, env: Env, sha: string): Option<Task>
    requires AllPrRefs(items)
  {
    if items == [] then None
    else
      assert AllPrRefs(items[1..]);
      match Asker(items[1..], env, sha)
      case Some(t) => Some(t)
      case None => if Resolve(items[0], env) == ToPick(sha) then Some(items[0]) else None
  }

  /** What its cherry-pick makes of a backport. */
  function PickEdit(name: string, sha: string, rc: string, env: Env): (e: Edit)
    ensures e.ref == name
  {
    if sha in env.picks && env.picks[sha].Pushed? then
      Edit(name, true, [Pair("status", "done"), Pair("rc", rc), Pair("commit", env.picks[sha].short)])
    else Edit(name, false, [Pair("status", "error-merge-conflict")])
  }

  function PickEdits(shas: seq<string>, items: map<string, Task>, rc: string, env: Env): seq<Edit>
    requires forall s :: s in shas ==> s in items
  {
    if shas == [] then []
    else [PickEdit(items[shas[0]].name, shas[0], rc, env)] + PickEdits(shas[1..], items, rc, env)
  }

  /** A commit as `git rev-parse --short` prints it. */
  predicate IsShort(short: string) {
    short != "" && forall i :: 0 <= i < |short| ==> !IsSpace(short[i])
  }

  ghost predicate ShortsAreGood(env: Env) {
    forall sha :: sha in env.picks && env.picks[sha].Pushed? ==> IsShort(env.picks[sha].short)
  }

  /** Every backport is listed under its name. */
  ghost predicate AllListedIn(items: seq<Task>, lines: seq<string>) {
    forall t :: t in items ==> IsPrRef(t.name) && IsListed(lines, t.name)
  }

  lemma TriageOneCounts(acc: Triage, t: Task, env: Env)
    requires IsPrRef(t.name)
    ensures TriageOne(acc, t, env, false).notes
            == if LookupEdit(t, env) == [] then acc.notes else Counted(acc.notes, LookupEdit(t, env)[0], env)
  {
    hide Resolve, IsPrRef, Noted;
  }

  lemma LookupEditIsGood(t: Task, env: Env)
    requires IsPrRef(t.name)
    ensures LookupEdit(t, env) == [] || exists e :: LookupEdit(t, env) == [e] && GoodEdit(e) && e.ref == t.name
  {
    PrRefIsGood(t.name);
    ResolvedStatusIsGood(t, env);
    hide Resolve, IsPrRef, GoodMetadata, Trimmed;
    if Resolve(t, env).Failed? {
      var e := Edit(t.name, false, [Pair("status", Resolve(t, env).status)]);
      assert GoodEdit(e) && LookupEdit(t, env) == [e];
    }
  }

  lemma TriageOneNotes(acc: Triage, t: Task, env: Env, before: seq<string>, edits: seq<Edit>)
    requires IsPrRef(t.name) && IsListed(before, t.name) && NotesAre(acc.notes, before, edits, env)
    ensures NotesAre(TriageOne(acc, t, env, false).notes, before, edits + LookupEdit(t, env), env)
  {
    TriageOneCounts(acc, t, env);
    LookupEditIsGood(t, env);
    hide *;
    if LookupEdit(t, env) == [] {
      assert edits + [] == edits;
    } else {
      NotedAre(acc.notes, before, edits, LookupEdit(t, env)[0], env);
    }
  }

  lemma {:induction false} TriageNotes(acc: Triage, items: seq<Task>, env: Env, before: seq<string>, edits: seq<Edit>)
    requires AllPrRefs(items) && AllListedIn(items, before) && NotesAre(acc.notes, before, edits, env)
    ensures NotesAre(TriageAll(acc, items, env, false).notes, before, edits + LookupEdits(items, env), env)
    decreases |items|
  {
    hide IsPrRef, NotesAre, IsListed, TriageOne, LookupEdit;
    if items == [] {
      assert edits + [] == edits;
    } else {
      assert AllPrRefs(items[1..]) && AllListedIn(items[1..], before);
      TriageOneNotes(acc, items[0], env, before, edits);
      var more := edits + LookupEdit(items[0], env);
      TriageNotes(TriageOne(acc, items[0], env, false), items[1..], env, before, more);
      assert more + LookupEdits(items[1..], env) == edits + LookupEdits(items, env);
    }
  }

  lemma TriageOneItems(acc: Triage, t: Task, env: Env)
    requires IsPrRef(t.name)
    ensures TriageOne(acc, t, env, false).items
            == match Resolve(t, env) case ToPick(sha) => acc.items[sha := t] case _ => acc.items
  {
    hide Resolve, IsPrRef, Noted;
  }

  /** The backport a commit is noted for. */
  lemma {:induction false} TriageItems(acc: Triage, items: seq<Task>, env: Env, sha: string)
    requires AllPrRefs(items)
    ensures var (r, t) := (TriageAll(acc, items, env, false).items, Asker(items, env, sha));
            && (sha in r <==> t.Some? || sha in acc.items)
            && (sha in r ==> r[sha] == if t.Some? then t.value else acc.items[sha])
    decreases |items|
  {
    hide IsPrRef, TriageOne, Resolve;
    if items != [] {
      assert AllPrRefs(items[1..]);
      TriageOneItems(acc, items[0], env);
      TriageItems(TriageOne(acc, items[0], env, false), items[1..], env, sha);
    }
  }

  lemma PickEditIsGood(name: string, sha: string, rc: string, env: Env)
    requires IsPrRef(name) && ShortsAreGood(env) && IsShort(rc)
    ensures GoodEdit(PickEdit(name, sha, rc, env))
  {
    PrRefIsGood(name);
    ConflictIsGood();
    if sha in env.picks && env.picks[sha].Pushed? { DoneIsGood(rc, env.picks[sha].short); }
    hide IsPrRef, GoodMetadata, Trimmed, IsShort;
  }

  lemma ConflictIsGood()
    ensures GoodMetadata([Pair("status", "error-merge-conflict")])
  {
    assert IsDashed("error-merge-conflict");
    DashedIsGood("error-merge-conflict");
  }

  lemma DoneIsGood(rc: string, short: string)
    requires IsShort(rc) && IsShort(short)
    ensures GoodMetadata([Pair("status", "done"), Pair("rc", rc), Pair("commit", short)])
  {
    assert GoodPair(Pair("status", "done")) && GoodPair(Pair("rc", rc)) && GoodPair(Pair("commit", short));
    hide GoodPair;
  }

  lemma PickOneCounts(p: Picking, sha: string, name: string, rc: string, env: Env)
    ensures PickOne(p, sha, name, rc, env, false).notes == Counted(p.notes, PickEdit(name, sha, rc, env), env)
  {
    hide Noted;
  }

  lemma PickOneNotes(p: Picking, sha: string, name: string, rc: string, env: Env, before: seq<string>, edits: seq<Edit>)
    requires IsPrRef(name) && IsListed(before, name) && ShortsAreGood(env) && IsShort(rc)
    requires NotesAre(p.notes, before, edits, env)
    ensures NotesAre(PickOne(p, sha, name, rc, env, false).notes, before, edits + [PickEdit(name, sha, rc, env)], env)
  {
    PickEditIsGood(name, sha, rc, env);
    PickOneCounts(p, sha, name, rc, env);
    var e := PickEdit(name, sha, rc, env);
    assert e.ref == name;
    hide *;
    NotedAre(p.notes, before, edits, e, env);
  }

  ghost predicate NamesListed(shas: seq<string>, items: map<string, Task>, lines: seq<string>) {
    forall s :: s in shas ==> s in items && IsPrRef(items[s].name) && IsListed(lines, items[s].name)
  }

  lemma {:induction false} PickNotes(p: Picking, shas: seq<string>, items: map<string, Task>, rc: string, env: Env,
                                     before: seq<string>, edits: seq<Edit>)
    requires NamesListed(shas, items, before) && ShortsAreGood(env) && IsShort(rc)
    requires NotesAre(p.notes, before, edits, env)
    ensures NotesAre(PickAll(p, shas, items, rc, env, false).notes, before, edits + PickEdits(shas, items, rc, env),
            env)
    decreases |shas|
  {
    hide IsPrRef, NotesAre, IsListed, ShortsAreGood, IsShort, PickOne, PickEdit;
    if shas == [] {
      assert edits + [] == edits;
    } else {
      var (sha, rest) := (shas[0], shas[1..]);
      assert sha in items && forall s :: s in rest ==> s in shas;
      PickOneNotes(p, sha, items[sha].name, rc, env, before, edits);
      var more := edits + [PickEdit(items[sha].name, sha, rc, env)];
      PickNotes(PickOne(p, sha, items[sha].name, rc, env, false), rest, items, rc, env, before, more);
      assert more + PickEdits(rest, items, rc, env) == edits + PickEdits(shas, items, rc, env);
    }
  }

  // ------------------------------------------------------------------- one run

  lemma {:induction false} AskerIs(items: seq<Task>, env: Env, sha: string)
    requires AllPrRefs(items)
    ensures match Asker(items, env, sha)
            case None => forall t :: t in items ==> Resolve(t, env) != ToPick(sha)
            case Some(t) =>
              exists k :: 0 <= k < |items| && items[k] == t && Resolve(t, env) == ToPick(sha)
                          && forall j :: k < j < |items| ==> Resolve(items[j], env) != ToPick(sha)
  {
    hide IsPrRef, Resolve;
    if items != [] {
      var rest := items[1..];
      assert AllPrRefs(rest) && items == [items[0]] + rest;
      AskerIs(rest, env, sha);
      match Asker(rest, env, sha) {
        case Some(t) =>
          var k :| 0 <= k < |rest| && rest[k] == t && Resolve(t, env) == ToPick(sha)
                   && forall j :: k < j < |rest| ==> Resolve(rest[j], env) != ToPick(sha);
          assert items[k + 1] == t;
        case None =>
          if Resolve(items[0], env) == ToPick(sha) {
            assert items[0] == items[0];
          }
      }
    }
  }

  lemma AskedIff(items: seq<Task>, env: Env, sha: string)
    requires AllPrRefs(items)
    ensures sha in Asked(items, env) <==> Asker(items, env, sha).Some?
  {
    AskerIs(items, env, sha);
    hide IsPrRef, Resolve, Asker;
    if t :| t in items && IsPrRef(t.name) && Resolve(t, env) == ToPick(sha) {
      assert Resolve(t, env).sha in Asked(items, env);
    }
  }

  /** For each commit asked for, the backport it is noted for. */
  ghost function Askers(items: seq<Task>, env: Env): (r: map<string, Task>)
    requires AllPrRefs(items)
    ensures r.Keys == Asked(items, env)
  {
    map s | s in Asked(items, env) :: (AskedIff(items, env, s); Asker(items, env, s).value)
  }

  lemma TriageIsAskers(start: Notes, items: seq<Task>, env: Env)
    requires AllPrRefs(items)
    ensures TriageAll(Triage(map[], start), items, env, false).items == Askers(items, env)
  {
    hide IsPrRef, TriageAll, Asker, Asked;
    var (acc, askers) := (Triage(map[], start), Askers(items, env));
    var r := TriageAll(acc, items, env, false).items;
    forall s ensures (s in r <==> s in askers) && (s in r ==> r[s] == askers[s]) {
      TriageItems(acc, items, env, s);
      AskedIff(items, env, s);
    }
  }

  /** Whether the loop of picks runs. */
  ghost predicate PicksRun(w: World, branch: string, asked: set<string>, env: Env) {
    asked != {} && !env.dirty && AllKnown(asked, env.chronology) && branch in w.branches
  }

  /** Every edit that a run makes to the text it holds. */
  ghost function RunEdits(w: World, v: Version, items: seq<Task>, env: Env): seq<Edit>
    requires AllPrRefs(items)
  {
    var asked := Asked(items, env);
    LookupEdits(items, env)
    + if PicksRun(w, BranchName(v), asked, env)
      then PickEdits(InOrder(env.chronology, asked), Askers(items, env), "rc" + FromNat(NextRc(v, w.tags)), env)
      else []
  }

  lemma RcIsShort(n: nat)
    ensures IsShort("rc" + FromNat(n))
  {
    var (d, rc) := (FromNat(n), "rc" + FromNat(n));
    assert forall i :: 0 <= i < |rc| ==> rc[i] == if i < 2 then "rc"[i] else d[i - 2];
  }

  lemma PendingListed(body: Body)
    ensures AllPrRefs(Pending(Backports(body))) && AllListedIn(Pending(Backports(body)), body)
  {
    PendingArePrRefs(body);
    var items := Backports(body);
    forall t | t in Pending(items) ensures IsPrRef(t.name) && IsListed(body, t.name) {
      PendingIs(items, t);
      hide Pending, IsPending, IsPrRef, ParseLine;
      BackportHasLine(body, t);
    }
  }

  lemma BackportHasLine(body: Body, t: Task)
    requires t in Backports(body)
    ensures IsPrRef(t.name) && exists i :: 0 <= i < |body| && ParseLine(body[i]) == Some(t)
    ensures IsListed(body, t.name)
  {
    hide BackportsIn, ParseLine, IsPrRef, Section, Lower;
    var s := Section(body).value;
    var lines := body[s.0..s.1];
    BackportListed(lines, t);
    var line :| line in lines && Backport(line) == Some(t);
    var i :| 0 <= i < |lines| && lines[i] == line;
    assert body[s.0 + i] == line && Named(line, t.name);
  }

  lemma AskersListed(items: seq<Task>, env: Env, lines: seq<string>, chronology: seq<string>)
    requires AllPrRefs(items) && AllListedIn(items, lines)
    ensures NamesListed(InOrder(chronology, Asked(items, env)), Askers(items, env), lines)
  {
    hide IsPrRef, IsListed, Asker, InOrder, Asked, Resolve;
    var shas := InOrder(chronology, Asked(items, env));
    forall s | s in shas ensures IsPrRef(Askers(items, env)[s].name) && IsListed(lines, Askers(items, env)[s].name) {
      AskerIs(items, env, s);
      AskedIff(items, env, s);
    }
  }

  /** What the loop of picks leaves when it runs. */
  lemma PicksNoted(w: World, v: Version, items: seq<Task>, notes: Notes, env: Env, before: seq<string>)
    requires BranchName(v) in w.branches && AllPrRefs(items) && AllListedIn(items, before) && ShortsAreGood(env)
    requires NotesAre(notes, before, LookupEdits(items, env), env) && PicksRun(w, BranchName(v), Asked(items, env), env)
    ensures var head := w.branches[BranchName(v)];
            NotesAre(PickAll(Picking(head, head, notes), InOrder(env.chronology, Asked(items, env)), Askers(items, env),
                             "rc" + FromNat(NextRc(v, w.tags)), env, false).notes, before, RunEdits(w, v, items, env),
                                 env)
  {
    RcIsShort(NextRc(v, w.tags));
    hide IsShort, ShortsAreGood, NotesAre, AllPrRefs, AllListedIn, PickAll, InOrder, Asked, Askers, LookupEdits, NextRc,
         PickEdits, BranchName, PicksRun;
    AskersListed(items, env, before, env.chronology);
    var head := w.branches[BranchName(v)];
    PickNotes(Picking(head, head, notes), InOrder(env.chronology, Asked(items, env)), Askers(items, env),
              "rc" + FromNat(NextRc(v, w.tags)), env, before, LookupEdits(items, env));
  }

  /** The notes a run ends with. */
  ghost function FinalNotes(w: World, v: Version, body: Body, env: Env): Notes {
    PendingArePrRefs(body);
    var items := Pending(Backports(body));
    var asked := Asked(items, env);
    var triaged := TriageAll(Triage(map[], Notes(body, body, 0)), items, env, false).notes;
    if PicksRun(w, BranchName(v), asked, env) then
      var head := w.branches[BranchName(v)];
      InAsked(env, asked);
      PickAll(Picking(head, head, triaged), InOrder(env.chronology, asked), Askers(items, env),
              "rc" + FromNat(NextRc(v, w.tags)), env, false).notes
    else triaged
  }

  lemma InAsked(env: Env, asked: set<string>)
    ensures forall s :: s in InOrder(env.chronology, asked) ==> s in asked
  {
  }

  lemma RunPicksStores(w: World, issue: nat, v: Version, env: Env)
    requires issue in w.issues && VersionInTitle(w.issues[issue].title) == Some(v)
    ensures var body := w.issues[issue].body;
            var asked := Asked(Pending(Backports(body)), env);
            var ((w', code), notes) := (RunPicks(w, issue, body, env, false), FinalNotes(w, v, body, env));
            && issue in w'.issues && w'.issues[issue].body == notes.saved
            && (code == 0 <==> notes.failed == 0 && (asked == {} || PicksRun(w, BranchName(v), asked, env)))
  {
    var body := w.issues[issue].body;
    var items := Pending(Backports(body));
    PendingArePrRefs(body);
    TriageIsAskers(Notes(body, body, 0), items, env);
    NothingAsked(env);
    hide AllPrRefs, Asked, Askers, Backports, Pending, VersionInTitle, BranchName, NextRc, InOrder, AllKnown, PickAll;
    assert Askers(items, env) == map[] <==> Asked(items, env) == {};
    if items != [] { hide TriageAll; }
  }

  lemma FinalNotesAre(w: World, v: Version, body: Body, env: Env)
    requires ShortsAreGood(env)
    ensures AllPrRefs(Pending(Backports(body)))
    ensures NotesAre(FinalNotes(w, v, body, env), body, RunEdits(w, v, Pending(Backports(body)), env), env)
  {
    var items := Pending(Backports(body));
    PendingListed(body);
    var start := Notes(body, body, 0);
    assert NotesAre(start, body, [], env) by { NothingEdited(body); }
    hide NotesAre, AllPrRefs, AllListedIn, TriageAll, Asked, Askers, LookupEdits, Backports, Pending, ShortsAreGood,
         BranchName, NextRc, InOrder, PicksRun, PickAll, PickEdits;
    TriageNotes(Triage(map[], start), items, env, body, []);
    assert [] + LookupEdits(items, env) == LookupEdits(items, env);
    if PicksRun(w, BranchName(v), Asked(items, env), env) {
      BranchThere(w, v, items, env);
      PicksNoted(w, v, items, TriageAll(Triage(map[], start), items, env, false).notes, env, body);
    } else {
      assert LookupEdits(items, env) + [] == LookupEdits(items, env);
    }
  }

  lemma BranchThere(w: World, v: Version, items: seq<Task>, env: Env)
    requires PicksRun(w, BranchName(v), Asked(items, env), env)
    ensures BranchName(v) in w.branches
  {
  }

  /** After a run over the stored text, that text is the edited one, up to the last
      edit that was saved; the run exits with 0 exactly when it was not stopped
      before the picks and checked off every backport that it edited. */
  lemma ChecklistIsEdited(w: World, issue: nat, v: Version, env: Env)
    requires issue in w.issues && VersionInTitle(w.issues[issue].title) == Some(v) && ShortsAreGood(env)
    ensures AllPrRefs(Pending(Backports(w.issues[issue].body)))
    ensures var (body, items) := (w.issues[issue].body, Pending(Backports(w.issues[issue].body)));
            var (w', code) := RunPicks(w, issue, body, env, false);
            var edits := RunEdits(w, v, items, env);
            && issue in w'.issues && IsEdited(body, w'.issues[issue].body, Stored(edits, env.saveFails))
            && (code == 0 <==>
                  Unchecked(edits) == 0
                  && (Asked(items, env) == {} || PicksRun(w, BranchName(v), Asked(items, env), env)))
  {
    RunPicksStores(w, issue, v, env);
    FinalNotesAre(w, v, w.issues[issue].body, env);
    hide IsEdited, AllPrRefs, Asked, Backports, Pending, VersionInTitle, BranchName, RunEdits, Stored, Unchecked,
         RunPicks, FinalNotes, PicksRun, ShortsAreGood;
  }
}
