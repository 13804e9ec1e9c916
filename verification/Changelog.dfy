/** The categories of a changelog section: rendering news, parsing the text of a
    section back, and merging more news into it. */
module Changelog {
  import opened Text

  /** A bullet with its continuation lines, as one text. */
  type Entry = string

  datatype Group = Group(category: string, entries: seq<Entry>)

  /** News by category, in the order of the dictionary. */
  type News = seq<Group>

  predicate IsBullet(line: string) {
    StartsWith(line, "* ") || StartsWith(line, "- ")
  }

  predicate IsSkipped(line: string) {
    Strip(line) == "" || StartsWith(Strip(line), "### ")
  }

  // -------------------------------------------------------------------- lines

  /** Where `splitlines` breaks. */
  predicate IsBreak(c: char) {
    '\n' <= c <= '\r' || '\U{1C}' <= c <= '\U{1E}'
  }

  function LineEnd(s: string): (n: nat)
    ensures n <= |s| && (n < |s| ==> IsBreak(s[n]))
    ensures forall i :: 0 <= i < n ==> !IsBreak(s[i])
  {
    if s == "" || IsBreak(s[0]) then 0 else 1 + LineEnd(s[1..])
  }

  /** `s.splitlines()`, except that a carriage return and the newline after it
      are two breaks and that a last break starts a line too: the lines there are
      blank, and blank lines are skipped. */
  function Lines(s: string): seq<string> {
    var n := LineEnd(s);
    if n == |s| then [s] else [s[..n]] + Lines(s[n + 1..])
  }

  function Joined(lines: seq<string>): string {
    if lines == [] then "" else if |lines| == 1 then lines[0] else lines[0] + "\n" + Joined(lines[1..])
  }

  lemma {:induction false} JoinedAppend(lines: seq<string>, line: string)
    requires lines != []
    ensures Joined(lines + [line]) == Joined(lines) + "\n" + line
  {
    if |lines| == 1 {
      assert (lines + [line])[1..] == [line];
    } else {
      assert (lines + [line])[1..] == lines[1..] + [line];
      JoinedAppend(lines[1..], line);
    }
  }

  lemma LineEndConcat(a: string, b: string)
    ensures LineEnd(a + "\n" + b) == LineEnd(a)
  {
    var (s, n) := (a + "\n" + b, LineEnd(a));
    assert IsBreak(s[n]) && forall i :: 0 <= i < n ==> s[i] == a[i];
    LineEndIs(s, n);
  }

  lemma LineEndIs(s: string, n: nat)
    requires n <= |s| && (forall i :: 0 <= i < n ==> !IsBreak(s[i])) && (n < |s| ==> IsBreak(s[n]))
    ensures LineEnd(s) == n
  {
    var _ := LineEnd(s);
  }

  lemma {:induction false} LinesConcat(a: string, b: string)
    ensures Lines(a + "\n" + b) == Lines(a) + Lines(b)
    decreases |a|
  {
    hide IsBreak, LineEnd;
    var (s, n) := (a + "\n" + b, LineEnd(a));
    LineEndConcat(a, b);
    if n < |a| {
      var rest := a[n + 1..];
      assert s[n + 1..] == rest + "\n" + b && s[..n] == a[..n];
      LinesConcat(rest, b);
      assert [a[..n]] + (Lines(rest) + Lines(b)) == [a[..n]] + Lines(rest) + Lines(b);
    } else {
      assert s[n + 1..] == b && s[..n] == a;
    }
  }

  lemma {:induction false} LinesJoined(s: string)
    requires forall c :: c in s && IsBreak(c) ==> c == '\n'
    ensures Lines(s) != [] && Joined(Lines(s)) == s
    decreases |s|
  {
    var n := LineEnd(s);
    if n < |s| {
      LinesJoined(s[n + 1..]);
      assert Lines(s)[1..] == Lines(s[n + 1..]) && s[n] in s;
      assert s == s[..n] + "\n" + s[n + 1..];
    }
  }

  // ------------------------------------------------------------------ sorting

  /** `_get_sub_category`: the lower-cased text in parentheses at the start. */
  function SubCategory(e: Entry): string {
    if e == "" || (e[0] != '*' && e[0] != '-') then ""
    else
      var rest := LStrip(e[1..]);
      if rest == "" || rest[0] != '(' then ""
      else
        var end := IndexOf(rest[1..], ')');
        if end == 0 || end == |rest[1..]| then "" else Lower(rest[1..][..end])
  }

  /** The order of the pairs of sub-category and text. */
  predicate Before(a: Entry, b: Entry) {
    Less(SubCategory(a), SubCategory(b)) || (SubCategory(a) == SubCategory(b) && AtMost(a, b))
  }

  function Insert(x: Entry, es: seq<Entry>): seq<Entry> {
    if es == [] || Before(x, es[0]) then [x] + es else [es[0]] + Insert(x, es[1..])
  }

  function Sorted(es: seq<Entry>): seq<Entry> {
    if es == [] then [] else Insert(es[0], Sorted(es[1..]))
  }

  lemma BeforeTotal(a: Entry, b: Entry)
    ensures Before(a, b) || Before(b, a)
    ensures Before(a, b) && Before(b, a) ==> a == b
  {
    hide Less, SubCategory;
    var (x, y) := (SubCategory(a), SubCategory(b));
    LessTotal(x, y);
    LessTotal(a, b);
    if Less(x, y) { LessAsymmetric(x, y); }
    if Less(y, x) { LessAsymmetric(y, x); }
    if Less(a, b) { LessAsymmetric(a, b); }
    if Less(b, a) { LessAsymmetric(b, a); }
    LessIrreflexive(x);
  }

  lemma BeforeTransitive(a: Entry, b: Entry, c: Entry)
    requires Before(a, b) && Before(b, c)
    ensures Before(a, c)
  {
    hide Less, SubCategory;
    var (x, y, z) := (SubCategory(a), SubCategory(b), SubCategory(c));
    if Less(x, y) && Less(y, z) { LessTransitive(x, y, z); }
    LessIrreflexive(x);
    if x == y == z && a != b && b != c { LessTransitive(a, b, c); }
  }

  lemma {:induction false} InsertIs(x: Entry, es: seq<Entry>)
    ensures multiset(Insert(x, es)) == multiset(es) + multiset{x}
    ensures forall e :: e in Insert(x, es) <==> e == x || e in es
  {
    hide Before;
    if es != [] && !Before(x, es[0]) {
      InsertIs(x, es[1..]);
      assert es == [es[0]] + es[1..];
    }
  }

  lemma {:induction false} SortedIs(es: seq<Entry>)
    ensures multiset(Sorted(es)) == multiset(es)
    ensures forall e :: e in Sorted(es) <==> e in es
  {
    hide Insert;
    if es != [] {
      SortedIs(es[1..]);
      InsertIs(es[0], Sorted(es[1..]));
      assert es == [es[0]] + es[1..];
    }
  }

  lemma InsertFirst(x: Entry, e: Entry, rest: seq<Entry>)
    ensures Insert(x, [e] + rest) == if Before(x, e) then [x] + ([e] + rest) else [e] + Insert(x, rest)
  {
    assert ([e] + rest)[1..] == rest;
  }

  lemma InsertOnly(x: Entry)
    ensures Insert(x, []) == [x]
  {
  }

  lemma {:induction false} InsertsCommute(x: Entry, y: Entry, es: seq<Entry>)
    ensures Insert(x, Insert(y, es)) == Insert(y, Insert(x, es))
  {
    hide Before, Insert;
    BeforeTotal(x, y);
    if es == [] {
      InsertOnly(x);
      InsertOnly(y);
      InsertFirst(x, y, []);
      InsertFirst(y, x, []);
      assert [x] + [] == [x] && [y] + [] == [y];
    } else {
      var (e, rest) := (es[0], es[1..]);
      BeforeTotal(x, e);
      BeforeTotal(y, e);
      InsertsCommute(x, y, rest);
      InsertsAround(x, y, e, rest);
      assert es == [e] + rest;
    }
  }

  lemma InsertsAround(x: Entry, y: Entry, e: Entry, rest: seq<Entry>)
    requires (Before(x, y) || Before(y, x)) && (Before(x, e) || Before(e, x)) && (Before(y, e) || Before(e, y))
    requires Before(x, y) && Before(y, x) ==> x == y
    requires Insert(x, Insert(y, rest)) == Insert(y, Insert(x, rest))
    ensures Insert(x, Insert(y, [e] + rest)) == Insert(y, Insert(x, [e] + rest))
  {
    hide Before, Insert;
    InsertFirst(x, e, rest);
    InsertFirst(y, e, rest);
    InsertFirst(x, y, [e] + rest);
    InsertFirst(y, x, [e] + rest);
    InsertFirst(x, e, Insert(y, rest));
    InsertFirst(y, e, Insert(x, rest));
    if Before(x, e) && Before(y, x) { BeforeTransitive(y, x, e); }
    if Before(y, e) && Before(x, y) { BeforeTransitive(x, y, e); }
  }

  /** An element may as well be inserted last. */
  lemma {:induction false} SortedWithout(es: seq<Entry>, i: nat)
    requires i < |es|
    ensures Sorted(es) == Insert(es[i], Sorted(es[..i] + es[i + 1..]))
  {
    hide Insert;
    if i == 0 {
      assert es[..0] + es[1..] == es[1..];
    } else {
      SortedWithout(es[1..], i - 1);
      var rest := es[1..][..i - 1] + es[1..][i..];
      assert es[..i] + es[i + 1..] == [es[0]] + rest;
      assert ([es[0]] + rest)[1..] == rest;
      InsertsCommute(es[0], es[i], Sorted(rest));
    }
  }

  lemma RestMultiset(a: seq<Entry>, b: seq<Entry>, i: nat)
    requires a != [] && i < |b| && b[i] == a[0] && multiset(a) == multiset(b)
    ensures multiset(a[1..]) == multiset(b[..i] + b[i + 1..])
  {
    assert a == [a[0]] + a[1..] && b == b[..i] + [b[i]] + b[i + 1..];
    assert multiset(a) == multiset{a[0]} + multiset(a[1..]);
    var rest := multiset(b[..i] + b[i + 1..]);
    assert multiset(b) == rest + multiset{a[0]};
    forall e: Entry ensures multiset(a[1..])[e] == rest[e] { assert multiset(a)[e] == multiset(b)[e]; }
  }

  /** The sorted order depends on what the entries are only. */
  lemma {:induction false} SortedUnique(a: seq<Entry>, b: seq<Entry>)
    requires multiset(a) == multiset(b)
    ensures Sorted(a) == Sorted(b)
  {
    hide Insert;
    if a == [] {
      assert |b| == |multiset(b)| == 0;
    } else {
      assert a[0] in multiset(b);
      var i :| 0 <= i < |b| && b[i] == a[0];
      RestMultiset(a, b, i);
      SortedUnique(a[1..], b[..i] + b[i + 1..]);
      SortedWithout(b, i);
    }
  }

  // ---------------------------------------------------------------- rendering

  const STANDARD: seq<string> := ["removed", "changed", "fixed", "added"]

  /** The entries of a category; of a repeated one the last. */
  function EntriesOf(news: News, category: string): seq<Entry> {
    if news == [] then []
    else if news[|news| - 1].category == category then news[|news| - 1].entries
    else EntriesOf(news[..|news| - 1], category)
  }

  function Extras(news: News): seq<string> {
    if news == [] then []
    else
      var front := Extras(news[..|news| - 1]);
      var c := news[|news| - 1].category;
      if c in STANDARD || c in front then front else front + [c]
  }

  /** The standard categories, then the others as they come. */
  function CategoryOrder(news: News): seq<string> {
    STANDARD + Extras(news)
  }

  function SectionGroups(news: News, order: seq<string>): seq<Group> {
    if order == [] then []
    else
      var front := SectionGroups(news, order[..|order| - 1]);
      var c := order[|order| - 1];
      if EntriesOf(news, c) == [] then front else front + [Group(c, Sorted(EntriesOf(news, c)))]
  }

  function Capitalized(s: string): string {
    if s == "" then "" else (if 'a' <= s[0] <= 'z' then [s[0] - 'a' + 'A'] else [s[0]]) + Lower(s[1..])
  }

  function EntriesText(es: seq<Entry>): string {
    if es == [] then "" else "\n" + es[0] + EntriesText(es[1..])
  }

  /** What stands below a category's anchor, but for the blank line. */
  function BodyText(g: Group): string {
    "\n### " + Capitalized(g.category) + EntriesText(g.entries)
  }

  /** The line of a category's anchor; `anchor` is what it starts with. */
  function AnchorLine(category: string, anchor: string): string {
    "\n" + anchor + category + "}"
  }

  /** A category as written, each line after a newline. */
  function GroupText(g: Group, anchor: string): string {
    AnchorLine(g.category, anchor) + BodyText(g) + "\n"
  }

  function GroupsText(gs: seq<Group>, anchor: string): string {
    if gs == [] then "" else GroupText(gs[0], anchor) + GroupsText(gs[1..], anchor)
  }

  /** The categories of a section. */
  function Categories(news: News, anchor: string): string {
    GroupsText(SectionGroups(news, CategoryOrder(news)), anchor)
  }

  const NOTHING: string := "\nNo notable changes.\n"

  /** `generate_release_block` below the version anchor; `header` is its title,
      link and blank lines. */
  function NewSection(header: string, news: News, anchor: string): string {
    header + (if SectionGroups(news, CategoryOrder(news)) == [] then NOTHING else Categories(news, anchor))
  }

  /** Lines, each after a newline. */
  function Led(lines: seq<string>): string {
    if lines == [] then "" else Led(lines[..|lines| - 1]) + "\n" + lines[|lines| - 1]
  }

  lemma {:induction false} LedJoined(lines: seq<string>)
    requires lines != []
    ensures Led(lines) == "\n" + Joined(lines)
  {
    var (front, last) := (lines[..|lines| - 1], lines[|lines| - 1]);
    assert lines == front + [last];
    if front != [] {
      LedJoined(front);
      JoinedAppend(front, last);
    }
  }

  lemma LedAppend(lines: seq<string>, line: string)
    ensures Led(lines + [line]) == Led(lines) + "\n" + line
  {
    assert (lines + [line])[..|lines|] == lines;
  }

  lemma {:induction false} EntriesAppend(es: seq<Entry>, e: Entry)
    ensures EntriesText(es + [e]) == EntriesText(es) + "\n" + e
  {
    if es == [] {
      assert es + [e] == [e] && [e][1..] == [];
    } else {
      assert (es + [e])[1..] == es[1..] + [e];
      EntriesAppend(es[1..], e);
    }
  }

  method AppendEntries(top: seq<string>, es: seq<Entry>) returns (lines: seq<string>)
    ensures Led(lines) == Led(top) + EntriesText(es) && |top| <= |lines|
  {
    hide Led, EntriesText;
    lines := top;
    assert EntriesText([]) == "" by { NoEntries(); }
    for i := 0 to |es|
      invariant Led(lines) == Led(top) + EntriesText(es[..i]) && |top| <= |lines|
    {
      assert es[..i + 1] == es[..i] + [es[i]];
      EntriesAppend(es[..i], es[i]);
      LedAppend(lines, es[i]);
      lines := lines + [es[i]];
    }
    assert es[..|es|] == es;
  }

  lemma NoEntries()
    ensures EntriesText([]) == ""
  {
  }

  lemma {:induction false} GroupsAppend(gs: seq<Group>, g: Group, anchor: string)
    ensures GroupsText(gs + [g], anchor) == GroupsText(gs, anchor) + GroupText(g, anchor)
  {
    hide GroupText;
    if gs == [] {
      assert gs + [g] == [g] && [g][1..] == [];
    } else {
      assert (gs + [g])[1..] == gs[1..] + [g];
      GroupsAppend(gs[1..], g, anchor);
    }
  }

  lemma NoGroups(anchor: string)
    ensures GroupsText([], anchor) == ""
  {
  }

  method AppendGroup(top: seq<string>, g: Group, anchor: string) returns (lines: seq<string>)
    ensures Led(lines) == Led(top) + GroupText(g, anchor) && |top| <= |lines|
  {
    hide *;
    GroupLed(g, anchor);
    var (first, heading) := (anchor + g.category + "}", "### " + Capitalized(g.category));
    LedAppend(top, first);
    LedAppend(top + [first], heading);
    lines := AppendEntries(top + [first] + [heading], g.entries);
    LedAppend(lines, "");
    lines := lines + [""];
  }

  lemma GroupLed(g: Group, anchor: string)
    ensures GroupText(g, anchor)
            == "\n" + (anchor + g.category + "}") + "\n" + ("### " + Capitalized(g.category)) + EntriesText(g.entries)
                + "\n"
  {
    hide EntriesText, Capitalized;
  }

  /** The loop over the category order that both ways of adding news share. */
  method AppendCategories(top: seq<string>, news: News, anchor: string) returns (lines: seq<string>, hasEntries: bool)
    ensures Led(lines) == Led(top) + Categories(news, anchor) && |top| <= |lines|
    ensures hasEntries <==> SectionGroups(news, CategoryOrder(news)) != []
    ensures !hasEntries ==> lines == top
  {
    hide Sorted, GroupText, Extras, GroupsText, EntriesOf, Led;
    NoGroups(anchor);
    var order := CategoryOrder(news);
    hasEntries, lines := false, top;
    for i := 0 to |order|
      invariant hasEntries <==> SectionGroups(news, order[..i]) != []
      invariant |top| <= |lines| && (!hasEntries ==> lines == top)
      invariant Led(lines) == Led(top) + GroupsText(SectionGroups(news, order[..i]), anchor)
    {
      assert order[..i + 1][..i] == order[..i];
      var entries := EntriesOf(news, order[i]);
      if entries != [] {
        hasEntries := true;
        var g := Group(order[i], Sorted(entries));
        GroupsAppend(SectionGroups(news, order[..i]), g, anchor);
        lines := AppendGroup(lines, g, anchor);
      }
    }
    assert order[..|order|] == order;
  }

  // ------------------------------------------------------------------ parsing

  predicate IsLower(c: char) {
    'a' <= c <= 'z'
  }

  predicate IsCategory(s: string) {
    s != "" && forall i :: 0 <= i < |s| ==> IsLower(s[i])
  }

  /** How many lower-case letters `s` starts with. */
  function Letters(s: string): (n: nat)
    ensures n <= |s| && (n < |s| ==> !IsLower(s[n]))
    ensures forall i :: 0 <= i < n ==> IsLower(s[i])
  {
    if s == "" || !IsLower(s[0]) then 0 else 1 + Letters(s[1..])
  }

  /** The category whose anchor `s` starts with. */
  function CategoryAt(s: string, anchor: string): (c: Option<string>)
    ensures c.Some? ==> |anchor| + |c.value| < |s|
  {
    if !StartsWith(s, anchor) then None
    else
      var n := Letters(s[|anchor|..]);
      if n == 0 || |anchor| + n == |s| || s[|anchor| + n] != '}' then None else Some(s[|anchor|..|anchor| + n])
  }

  /** Where the next category anchor is, or the end. */
  function NextCategory(s: string, anchor: string): (n: nat)
    ensures n <= |s|
  {
    if s == "" || CategoryAt(s, anchor).Some? then 0 else 1 + NextCategory(s[1..], anchor)
  }

  /** The entries of lines: a bullet starts one, other lines continue it. */
  function Entries(lines: seq<string>, current: seq<string>): seq<Entry> {
    if lines == [] then (if current == [] then [] else [Joined(current)])
    else if IsSkipped(lines[0]) then Entries(lines[1..], current)
    else if IsBullet(lines[0]) then (if current == [] then [] else [Joined(current)]) + Entries(lines[1..], [lines[0]])
    else Entries(lines[1..], if current == [] then [] else current + [lines[0]])
  }

  method ParseEntries(lines: seq<string>) returns (entries: seq<Entry>)
    ensures entries == Entries(lines, [])
  {
    hide IsSkipped, IsBullet, Joined;
    entries := [];
    var current: seq<string> := [];
    for i := 0 to |lines|
      invariant entries + Entries(lines[i..], current) == Entries(lines, [])
    {
      var line := lines[i];
      assert lines[i..][0] == line && lines[i..][1..] == lines[i + 1..];
      if IsSkipped(line) { continue; }
      if IsBullet(line) {
        if current != [] { entries := entries + [Joined(current)]; }
        current := [line];
      } else if current != [] {
        current := current + [line];
      }
    }
    if current != [] { entries := entries + [Joined(current)]; }
  }

  /** The entries of a category's text. */
  function EntriesIn(s: string): seq<Entry> {
    Entries(Lines(Strip(s)), [])
  }

  /** The categories found from a place on, up to the next anchor each. */
  function Parsed(s: string, anchor: string): News
    decreases |s|
  {
    if s == "" then []
    else match CategoryAt(s, anchor)
      case None => Parsed(s[1..], anchor)
      case Some(c) =>
        var rest := s[|anchor| + |c| + 1..];
        var n := NextCategory(rest, anchor);
        [Group(c, EntriesIn(rest[..n]))] + Parsed(rest[n..], anchor)
  }

  lemma {:induction false} NextIsAnchor(s: string, anchor: string)
    ensures var n := NextCategory(s, anchor);
            (n < |s| ==> CategoryAt(s[n..], anchor).Some?) && Parsed(s, anchor) == Parsed(s[n..], anchor)
  {
    hide CategoryAt, EntriesIn;
    if s != "" && CategoryAt(s, anchor).None? {
      NextIsAnchor(s[1..], anchor);
      var n := NextCategory(s[1..], anchor);
      assert s[1..][n..] == s[n + 1..];
    } else {
      assert s[0..] == s;
    }
  }

  lemma FirstParsed(s: string, anchor: string)
    requires CategoryAt(s, anchor).Some?
    ensures var c := CategoryAt(s, anchor).value;
            var rest := s[|anchor| + |c| + 1..];
            var n := NextCategory(rest, anchor);
            Parsed(s, anchor) == [Group(c, EntriesIn(rest[..n]))] + Parsed(rest[n..], anchor)
  {
    hide CategoryAt, EntriesIn;
  }

  method ParseCategories(s: string, anchor: string) returns (existing: News)
    ensures existing == Parsed(s, anchor)
  {
    NextIsAnchor(s, anchor);
    hide CategoryAt, EntriesIn, Parsed, NextCategory;
    existing := [];
    var rest := s[NextCategory(s, anchor)..];
    while rest != ""
      invariant rest != "" ==> CategoryAt(rest, anchor).Some?
      invariant existing + Parsed(rest, anchor) == Parsed(s, anchor)
      decreases |rest|
    {
      FirstParsed(rest, anchor);
      var c := CategoryAt(rest, anchor).value;
      var body := rest[|anchor| + |c| + 1..];
      NextIsAnchor(body, anchor);
      var n := NextCategory(body, anchor);
      var entries := ParseEntries(Lines(Strip(body[..n])));
      assert entries == EntriesIn(body[..n]) by { EntriesAre(body[..n]); }
      existing := existing + [Group(c, entries)];
      rest := body[n..];
    }
    assert Parsed("", anchor) == [] by { NothingParsed(anchor); }
  }

  lemma EntriesAre(s: string)
    ensures EntriesIn(s) == Entries(Lines(Strip(s)), [])
  {
  }

  lemma NothingParsed(anchor: string)
    ensures Parsed("", anchor) == []
  {
  }

  // ------------------------------------------------------------------ merging

  function Extended(news: News, g: Group): News {
    if news == [] then [g]
    else if news[|news| - 1].category == g.category then
      news[..|news| - 1] + [Group(g.category, news[|news| - 1].entries + g.entries)]
    else Extended(news[..|news| - 1], g) + [news[|news| - 1]]
  }

  function Merged(existing: News, news: News): News {
    if news == [] then existing else Extended(Merged(existing, news[..|news| - 1]), news[|news| - 1])
  }

  /** The section that replaces the text `content` below the version anchor. */
  function MergedSection(content: string, news: News, anchor: string): string {
    var header := content[..NextCategory(content, anchor)];
    Strip(RStrip(header) + "\n\n" + Strip(Categories(Merged(Parsed(content, anchor), news), anchor)) + "\n")
  }

  // ------------------------------------------------------- what a category holds

  lemma {:induction false} SectionGet(news: News, order: seq<string>, c: string)
    ensures EntriesOf(SectionGroups(news, order), c) == if c in order then Sorted(EntriesOf(news, c)) else []
  {
    hide Sorted;
    if order != [] {
      var (front, last) := (order[..|order| - 1], order[|order| - 1]);
      SectionGet(news, front, c);
      assert order == front + [last];
      var gs := SectionGroups(news, front);
      if EntriesOf(news, last) != [] {
        var g := Group(last, Sorted(EntriesOf(news, last)));
        assert (gs + [g])[..|gs|] == gs;
      } else if c == last {
        NothingSorted();
      }
    }
  }

  lemma NothingSorted()
    ensures Sorted([]) == []
  {
  }

  lemma {:induction false} OrderCovers(news: News, c: string)
    ensures c in CategoryOrder(news) || EntriesOf(news, c) == []
    ensures forall x :: x in Extras(news) ==> exists g :: g in news && g.category == x
  {
    if news != [] {
      var (front, last) := (news[..|news| - 1], news[|news| - 1]);
      OrderCovers(front, c);
      assert news == front + [last];
      forall x | x in Extras(news) ensures exists g :: g in news && g.category == x {
        if x in Extras(front) {
          var g :| g in front && g.category == x;
          assert g in news;
        } else {
          assert last in news && last.category == x;
        }
      }
    }
  }

  /** A section holds each category's entries, sorted. */
  lemma SectionHolds(news: News, c: string)
    ensures EntriesOf(SectionGroups(news, CategoryOrder(news)), c) == Sorted(EntriesOf(news, c))
  {
    OrderCovers(news, c);
    hide CategoryOrder, Sorted;
    SectionGet(news, CategoryOrder(news), c);
    NothingSorted();
  }

  lemma {:induction false} ExtendedGet(news: News, g: Group, c: string)
    ensures EntriesOf(Extended(news, g), c) == if c == g.category then EntriesOf(news, c) + g.entries
            else EntriesOf(news, c)
  {
    if news == [] {
      assert [g][..0] == [];
    } else if news[|news| - 1].category == g.category {
      var (front, h) := (news[..|news| - 1], Group(g.category, news[|news| - 1].entries + g.entries));
      assert (front + [h])[..|front|] == front;
    } else {
      var (front, last) := (news[..|news| - 1], news[|news| - 1]);
      ExtendedGet(front, g, c);
      assert (Extended(front, g) + [last])[..|Extended(front, g)|] == Extended(front, g);
    }
  }

  /** A dictionary has each category once. */
  ghost predicate Distinct(news: News) {
    forall i, j :: 0 <= i < j < |news| ==> news[i].category != news[j].category
  }

  lemma {:induction false} GetIsSome(news: News, c: string)
    ensures EntriesOf(news, c) == []
            || exists i :: 0 <= i < |news| && news[i].category == c && news[i].entries == EntriesOf(news, c)
  {
    if news != [] && news[|news| - 1].category != c {
      GetIsSome(news[..|news| - 1], c);
    }
  }

  lemma {:induction false} MergedGet(existing: News, news: News, c: string)
    requires Distinct(news)
    ensures EntriesOf(Merged(existing, news), c) == EntriesOf(existing, c) + EntriesOf(news, c)
  {
    hide Extended;
    if news != [] {
      var (front, last) := (news[..|news| - 1], news[|news| - 1]);
      MergedGet(existing, front, c);
      ExtendedGet(Merged(existing, front), last, c);
      GetIsSome(front, c);
      if c == last.category { assert EntriesOf(front, c) == []; }
    }
  }
}
