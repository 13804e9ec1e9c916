/** News merged into the changelog file: the sections that result, over any number
    of merges, and the entries that break them. */
module ChangelogMerge {
  import opened Text
  import opened Changelog
  import opened ChangelogReading
  import opened ChangelogFile
  import opened ChangelogSections
  import Template

  // ----------------------------------------------------------- harmless sections

  /** Entries no part of which is taken for an anchor or an escape. */
  ghost function Harmless(v: Version): iset<Entry> {
    iset e: Entry | IsWellFormed(e) && NoCategory(e, CategoryStart(v)) && IsCalm("\n" + e)
  }

  lemma HarmlessIsReadable(gs: seq<Group>, v: Version)
    requires GoodGroups(gs, Harmless(v))
    ensures GoodGroups(gs, Readable(CategoryStart(v)))
  {
    hide IsWellFormed, NoCategory, IsCalm, CategoryStart;
    forall g | g in gs ensures GoodGroup(g, Readable(CategoryStart(v))) { assert GoodGroup(g, Harmless(v)); }
  }

  /** Entries that neither end a section nor hold an escape. */
  ghost function Tame(): iset<Entry> {
    iset e: Entry | e != "" && IsTight(e) && IsCalm("\n" + e)
  }

  lemma HarmlessIsTame(gs: seq<Group>, v: Version)
    requires GoodGroups(gs, Harmless(v))
    ensures GoodGroups(gs, Tame())
  {
    hide IsWellFormed, NoCategory, IsCalm, CategoryStart;
    forall g | g in gs ensures GoodGroup(g, Tame()) {
      assert GoodGroup(g, Harmless(v));
      forall e | e in g.entries ensures e in Tame() {
        assert e in Harmless(v);
        WellFormedEnd(e);
      }
    }
  }

  lemma TameEntry(e: Entry)
    requires e in Tame()
    ensures IsTight("\n" + e) && IsCalm("\n" + e)
  {
    hide IsCalm;
    TightConcat("\n", e);
  }

  lemma {:induction false} EntriesCalm(l: string, es: seq<Entry>)
    requires IsCalm(l) && IsTight(l) && l != "" && forall e :: e in es ==> e in Tame()
    ensures var s := l + EntriesText(es); IsCalm(s) && IsTight(s) && s != ""
    decreases |es|
  {
    hide IsCalm, IsTight, Tame;
    if es == [] {
      assert l + EntriesText(es) == l;
    } else {
      var (first, rest) := ("\n" + es[0], EntriesText(es[1..]));
      assert es[0] in es;
      TameEntry(es[0]);
      EntriesCalm(first, es[1..]);
      CalmConcat(l, first + rest);
      TightConcat(l, first + rest);
      assert l + EntriesText(es) == l + (first + rest);
    }
  }

  lemma TightConcat(a: string, b: string)
    requires b != "" && IsTight(b)
    ensures IsTight(a + b)
  {
    assert (a + b)[|a + b| - 1] == b[|b| - 1];
  }

  lemma HeadingCalm(c: string)
    requires IsCategory(c)
    ensures var s := "\n### " + Capitalized(c); IsCalm(s) && IsTight(s)
  {
    NameChars(c);
    hide Capitalized, IsCategory, IsCalm;
    var (name, s) := (Capitalized(c), "\n### " + Capitalized(c));
    forall i | 0 <= i < |s| ensures s[i] != '{' && s[i] != '\\' {
      if i >= 5 { assert s[i] == name[i - 5]; NameIsLetters(c, i - 5); }
    }
    QuietIsCalm(s);
    assert s[|s| - 1] == name[|name| - 1];
  }

  lemma NameIsLetters(c: string, i: nat)
    requires IsCategory(c) && i < |Capitalized(c)|
    ensures Capitalized(c)[i] != '{' && Capitalized(c)[i] != '\\'
  {
    assert IsLower(c[i]);
    if i > 0 { assert Capitalized(c)[i] == LowerChar(c[1..][i - 1]); }
  }

  lemma AnchorLineCalm(c: string, v: Version)
    requires IsCategory(c)
    ensures var s := AnchorLine(c, CategoryStart(v)); IsCalm(s) && IsTight(s)
  {
    AnchorChars(v);
    AnchorRoundTrip(v, c + "}");
    var anchor := CategoryStart(v);
    var s := AnchorLine(c, anchor);
    var t := anchor + (c + "}");
    hide VersionAt, CategoryStart;
    assert s == "\n" + t && s[1..] == t && t[0] == "{#"[0];
    forall i | 1 <= i < |s| ensures !IsSpace(s[i]) && s[i] != '\\' {
      if i <= |anchor| { assert s[i] == anchor[i - 1]; }
      else if i < |s| - 1 { assert s[i] == c[i - 1 - |anchor|] && IsLower(c[i - 1 - |anchor|]); }
    }
    assert LStrip(s) == t;
    assert s[0..] == s && !EndsSection(s);
  }

  lemma GroupCalm(g: Group, v: Version)
    requires GoodGroup(g, Tame())
    ensures var s := AnchorLine(g.category, CategoryStart(v)) + BodyText(g);
            IsCalm(s) && IsTight(s) && s != "" && s[0] == '\n'
  {
    var (top, heading) := (AnchorLine(g.category, CategoryStart(v)), "\n### " + Capitalized(g.category));
    AnchorLineCalm(g.category, v);
    HeadingCalm(g.category);
    assert top[0] == '\n' && BodyText(g) == heading + EntriesText(g.entries);
    hide IsCalm, IsTight, Tame, AnchorLine, BodyText, EntriesText, CategoryStart;
    EntriesCalm(heading, g.entries);
    CalmConcat(top, BodyText(g));
    TightConcat(top, BodyText(g));
  }

  /** A text of lines that ends with one newline. */
  predicate EndsOnce(s: string) {
    |s| >= 2 && s[0] == '\n' && s[|s| - 1] == '\n' && !IsSpace(s[|s| - 2])
  }

  lemma EndsOnceConcat(a: string, b: string)
    requires a != "" && a[0] == '\n' && EndsOnce(b)
    ensures EndsOnce(a + b)
  {
    assert (a + b)[|a + b| - 1] == b[|b| - 1] && (a + b)[|a + b| - 2] == b[|b| - 2];
  }

  lemma EndsOnceNewline(a: string)
    requires a != "" && a[0] == '\n' && |a| >= 1 && IsTight(a)
    ensures EndsOnce(a + "\n")
  {
  }

  lemma {:induction false} GroupsCalm(gs: seq<Group>, v: Version)
    requires GoodGroups(gs, Tame())
    ensures var s := GroupsText(gs, CategoryStart(v)); IsCalm(s) && (gs != [] ==> EndsOnce(s)) && (gs == [] ==> s == "")
  {
    if gs == [] {
      QuietIsCalm("");
    } else {
      hide IsCalm, IsTight, GoodGroup, CategoryStart, AnchorLine, BodyText, EndsOnce;
      var (g, rest) := (gs[0], GroupsText(gs[1..], CategoryStart(v)));
      var first := AnchorLine(g.category, CategoryStart(v)) + BodyText(g);
      assert GoodGroup(g, Tame()) && GoodGroups(gs[1..], Tame());
      GroupCalm(g, v);
      GroupsCalm(gs[1..], v);
      FirstOfGroups(gs, CategoryStart(v));
      assert GroupsText(gs, CategoryStart(v)) == first + ("\n" + rest);
      GroupsCalmStep(first, rest);
    }
  }

  lemma GroupsCalmStep(first: string, rest: string)
    requires IsCalm(first) && IsTight(first) && first != "" && first[0] == '\n'
    requires IsCalm(rest) && (rest == "" || EndsOnce(rest))
    ensures IsCalm(first + ("\n" + rest)) && EndsOnce(first + ("\n" + rest))
  {
    hide IsCalm, IsTight;
    if rest == "" {
      assert "\n" + rest == "\n";
      QuietIsCalm("\n");
      EndsOnceNewline(first);
    } else {
      CalmLead(rest);
      EndsOnceConcat("\n", rest);
      EndsOnceConcat(first, "\n" + rest);
    }
    CalmConcat(first, "\n" + rest);
  }

  lemma FirstIsAnchor(gs: seq<Group>, v: Version)
    ensures gs != [] ==> |GroupsText(gs, CategoryStart(v))| >= 2 && GroupsText(gs, CategoryStart(v))[1] == '{'
  {
    if gs != [] {
      FirstOfGroups(gs, CategoryStart(v));
      AnchorChars(v);
      hide GroupsText, BodyText, CategoryStart;
      assert AnchorLine(gs[0].category, CategoryStart(v))[1] == CategoryStart(v)[0] == "{#"[0];
    }
  }

  lemma CategoriesCalm(news: News, v: Version)
    requires GoodGroups(news, Tame())
    ensures var cats := Categories(news, CategoryStart(v));
            IsCalm(cats) && (cats == "" || (EndsOnce(cats) && cats[1] == '{'))
    ensures Categories(news, CategoryStart(v)) == "" <==> SectionGroups(news, CategoryOrder(news)) == []
  {
    FirstIsAnchor(SectionGroups(news, CategoryOrder(news)), v);
    hide IsCalm, GoodGroups, CategoryStart, EndsOnce;
    OrderIsGood(news, Tame());
    SectionGood(news, CategoryOrder(news), Tame());
    GroupsCalm(SectionGroups(news, CategoryOrder(news)), v);
  }

  /** A date as `strftime` writes it: no brace, no backslash. */
  predicate IsDate(date: string) {
    '{' !in date && '\\' !in date
  }

  lemma QuietTitle(v: Version, date: string)
    requires IsDate(date)
    ensures '{' !in Title(v, date) && '\\' !in Title(v, date) && Title(v, date)[0] == '\n' && EndsOnce(Title(v, date))
  {
    Text3Chars(v, '.');
    QuietText3(v);
    hide Text3;
    var (title, link) := (TitleLine(v, date), LinkLine(v));
    assert '{' !in LINK && '\\' !in LINK by { QuietLink(); }
    assert '{' !in title && '\\' !in title && '{' !in link && '\\' !in link;
    assert link[|link| - 1] == Text3(v, '.')[|Text3(v, '.')| - 1];
    hide TitleLine, LinkLine;
    var t := Title(v, date);
    assert t[|t| - 2] == link[|link| - 1];
  }

  lemma QuietLink()
    ensures '{' !in LINK && '\\' !in LINK
  {
    assert '{' !in "]: https://" && '\\' !in "]: https://";
    assert '{' !in "github.com/" && '\\' !in "github.com/";
    assert '{' !in "bazel-contrib/" && '\\' !in "bazel-contrib/";
    assert '{' !in "rules_python/" && '\\' !in "rules_python/";
    assert '{' !in "releases/tag/" && '\\' !in "releases/tag/";
  }

  lemma QuietText3(v: Version)
    ensures '{' !in Text3(v, '.') && '\\' !in Text3(v, '.')
  {
    Text3Chars(v, '.');
  }

  lemma CalmJoin(top: string, rest: string)
    requires IsCalm(top) && IsTight(top) && top != "" && top[0] == '\n' && IsCalm(rest) && EndsOnce(rest)
    ensures IsCalm(top + ("\n" + rest)) && EndsOnce(top + ("\n" + rest))
  {
    assert rest[0] == '\n';
    EndsOnceConcat("\n", rest);
    hide IsCalm, EndsOnce, IsTight;
    CalmLead(rest);
    CalmConcat(top, "\n" + rest);
    EndsOnceConcat(top, "\n" + rest);
  }

  lemma NothingCalm()
    ensures IsCalm(NOTHING) && EndsOnce(NOTHING)
  {
    hide IsCalm;
    QuietIsCalm(NOTHING) by { assert '{' !in NOTHING && '\\' !in NOTHING; }
  }

  lemma TitleTop(v: Version, date: string) returns (top: string)
    requires IsDate(date)
    ensures Title(v, date) == top + "\n" && IsCalm(top) && IsTight(top) && top != "" && top[0] == '\n'
  {
    hide Title, IsCalm;
    QuietTitle(v, date);
    var title := Title(v, date);
    top := title[..|title| - 1];
    QuietIsCalm(top);
  }

  lemma NewSectionCalm(v: Version, date: string, news: News)
    requires IsDate(date) && GoodGroups(news, Tame())
    ensures var s := NewSection(Title(v, date), news, CategoryStart(v)); IsCalm(s) && EndsOnce(s)
  {
    hide IsCalm, EndsOnce, IsTight, GoodGroups, CategoryStart, Title, Categories, SectionGroups, CategoryOrder, IsDate,
         Tame;
    var rest := if SectionGroups(news, CategoryOrder(news)) == [] then NOTHING else Categories(news, CategoryStart(v));
    var top := TitleTop(v, date);
    CategoriesCalm(news, v);
    NothingCalm();
    CalmJoin(top, rest);
    assert Title(v, date) + rest == top + ("\n" + rest);
  }

  // ------------------------------------------------------------------ creating

  /** A section that more news can be merged into: it starts on a line of its own,
      what precedes its categories has no escape and its entries are harmless. */
  ghost predicate IsReady(text: string, v: Version) {
    && HasSection(text, v)
    && var content := SectionOf(text, v).content;
    && content != "" && content[0] == '\n' && Template.NoEscape(content[..NextCategory(content, CategoryStart(v))])
    && GoodGroups(Held(text, v), Harmless(v))
  }

  lemma PlacedIsReady(text: string, v: Version)
    requires HasSection(text, v)
    requires var content := SectionOf(text, v).content;
             && content != "" && content[0] == '\n' && Template.NoEscape(content)
             && GoodGroups(Parsed(content, CategoryStart(v)), Harmless(v))
    ensures IsReady(text, v) && Held(text, v) == Parsed(SectionOf(text, v).content, CategoryStart(v))
  {
    hide SectionOf, GoodGroups, Template.NoEscape, CategoryStart, NextCategory, Parsed;
    var content := SectionOf(text, v).content;
    NoEscapePart(content, 0, NextCategory(content, CategoryStart(v)));
    assert content[0..NextCategory(content, CategoryStart(v))] == content[..NextCategory(content, CategoryStart(v))];
  }

  lemma ReadyIs(before: string, content: string, after: string, v: Version)
    requires Find(before + VersionAnchor(v) + content + after, VersionAnchor(v)) == |before|
    requires SectionEnd(content + after) == |content|
    requires content != "" && content[0] == '\n' && Template.NoEscape(content)
    requires GoodGroups(Parsed(content, CategoryStart(v)), Harmless(v))
    ensures var text := before + VersionAnchor(v) + content + after;
            && IsReady(text, v) && SectionOf(text, v) == Section(before, content, after)
            && Held(text, v) == Parsed(content, CategoryStart(v))
  {
    hide HasSection, SectionOf, GoodGroups, Template.NoEscape, Find, SectionEnd, CategoryStart, VersionAnchor, Parsed,
         IsReady;
    SectionIs(before, content, after, v);
    PlacedIsReady(before + VersionAnchor(v) + content + after, v);
  }

  lemma {:induction false} PointIsAnchor(s: string, v: Version)
    requires InsertionPoint(s, v).Some?
    ensures VersionAt(s[InsertionPoint(s, v).value..]).Some?
  {
    hide VersionAt, Smaller;
    if VersionAt(s).Some? && Smaller(VersionAt(s).value, v) {
      assert s[0..] == s;
    } else {
      PointIsAnchor(s[1..], v);
      var k := InsertionPoint(s[1..], v).value;
      assert s[1..][k..] == s[k + 1..];
    }
  }

  lemma LStripLead(s: string)
    ensures LStrip("\n" + s) == LStrip(s)
  {
    assert ("\n" + s)[1..] == s;
  }

  lemma AnchorEndsSection(s: string)
    requires VersionAt(s).Some?
    ensures EndsSection("\n\n\n" + s)
  {
    VersionStart(s);
    hide VersionAt;
    assert s[0] == "{#v"[0] == '{';
    assert "\n\n\n" + s == "\n" + ("\n" + ("\n" + s));
    LStripLead(s);
    LStripLead("\n" + s);
    LStripLead("\n" + ("\n" + s));
  }

  lemma PlacedText(a: string, anchor: string, section: string, b: string)
    requires EndsOnce(section)
    ensures a + anchor + section + "\n\n" + b == a + anchor + section[..|section| - 1] + ("\n\n\n" + b)
    ensures a + anchor + (section[..|section| - 1] + ("\n\n\n" + b))
            == a + anchor + section[..|section| - 1] + ("\n\n\n" + b)
  {
    assert section == section[..|section| - 1] + "\n";
  }

  /** A text put between the anchor and an older version is the section. */
  lemma PlacedContent(text: string, k: nat, content: string, v: Version)
    requires k <= |text| && VersionAt(text[k..]).Some? && Find(text, VersionAnchor(v)) >= k
    requires IsTight(content) && NoBoundary(content)
    ensures var after := "\n\n\n" + text[k..];
            && Find(text[..k] + VersionAnchor(v) + (content + after), VersionAnchor(v)) == k
            && SectionEnd(content + after) == |content|
  {
    hide *;
    var after := "\n\n\n" + text[k..];
    AnchorEndsSection(text[k..]);
    EndHere(after);
    EndAfter(content, after);
    AnchorPlaced(text[..k], text, content + after, v);
  }

  lemma CalmSection(section: string)
    requires IsCalm(section) && EndsOnce(section)
    ensures var content := section[..|section| - 1];
            && content + ['\n'] == section && content != "" && content[0] == '\n'
            && IsTight(content) && NoBoundary(content) && Template.NoEscape(content)
  {
    CalmPart(section, 0, |section| - 1);
    assert section[0..|section| - 1] == section[..|section| - 1];
  }

  lemma NewlineIsSpace()
    ensures IsSpace('\n')
  {
  }

  /** A created section is in front of the first smaller version and the text
      around it is unchanged. */
  lemma CreatedPlaced(text: string, v: Version, date: string, news: News)
    requires !HasSection(text, v) && InsertionPoint(text, v).Some? && IsDate(date) && GoodGroups(news, Tame())
    ensures var (k, r) := (InsertionPoint(text, v).value, Created(text, v, date, news));
            var section := NewSection(Title(v, date), news, CategoryStart(v));
            && EndsOnce(section) && r.Some? && HasSection(r.value, v)
            && SectionOf(r.value, v) == Section(text[..k], section[..|section| - 1], "\n\n\n" + text[k..])
  {
    assert Find(text, VersionAnchor(v)) >= |text|;
    hide *;
    var k := InsertionPoint(text, v).value;
    var section := NewSection(Title(v, date), news, CategoryStart(v));
    NewSectionCalm(v, date, news);
    CalmSection(section);
    PointIsAnchor(text, v);
    PlacedContent(text, k, section[..|section| - 1], v);
    PlacedText(text[..k], VersionAnchor(v), section, text[k..]);
    SectionIs(text[..k], section[..|section| - 1], "\n\n\n" + text[k..], v);
    CreatedIs(text, v, date, news);
  }

  /** It holds the news, sorted by category. */
  lemma CreatedReads(text: string, v: Version, date: string, news: News)
    requires !HasSection(text, v) && InsertionPoint(text, v).Some? && IsDate(date) && GoodGroups(news, Harmless(v))
    ensures var (k, r) := (InsertionPoint(text, v).value, Created(text, v, date, news));
            && r.Some? && IsReady(r.value, v) && Held(r.value, v) == SectionGroups(news, CategoryOrder(news))
            && SectionOf(r.value, v).before == text[..k] && SectionOf(r.value, v).after == "\n\n\n" + text[k..]
  {
    hide *;
    var anchor := CategoryStart(v);
    var section := NewSection(Title(v, date), news, anchor);
    HarmlessIsTame(news, v);
    NewSectionCalm(v, date, news);
    CalmSection(section);
    CreatedPlaced(text, v, date, news);
    QuietTitle(v, date);
    AnchorChars(v);
    NewlineIsSpace();
    NoBrace(Title(v, date), anchor);
    HarmlessIsReadable(news, v);
    NewSectionRead(Title(v, date), news, anchor);
    ParsedLast(section[..|section| - 1], '\n', anchor);
    OrderIsGood(news, Harmless(v));
    SectionGood(news, CategoryOrder(news), Harmless(v));
    PlacedIsReady(Created(text, v, date, news).value, v);
  }

  lemma CreatedIs(text: string, v: Version, date: string, news: News)
    requires InsertionPoint(text, v).Some?
    ensures var k := InsertionPoint(text, v).value;
            Created(text, v, date, news)
                == Some(text[..k] + VersionAnchor(v) + NewSection(Title(v, date), news, CategoryStart(v)) + "\n\n"
                    + text[k..])
  {
  }

  // ------------------------------------------------------------------- merging

  /** News as a dictionary: each category once, with some entry. */
  ghost predicate IsNews(news: News) {
    Distinct(news) && forall i :: 0 <= i < |news| ==> news[i].entries != []
  }

  lemma FirstHeld(news: News)
    requires IsNews(news) && news != []
    ensures EntriesOf(news, news[0].category) == news[0].entries
  {
    EntriesOfAt(news, 0);
  }

  lemma {:induction false} EntriesOfAt(news: News, i: nat)
    requires Distinct(news) && i < |news|
    ensures EntriesOf(news, news[i].category) == news[i].entries
  {
    if i < |news| - 1 {
      var front := news[..|news| - 1];
      assert news[i].category != news[|news| - 1].category && front[i] == news[i];
      assert Distinct(front);
      EntriesOfAt(front, i);
    }
  }

  /** With some news there is some category. */
  lemma SomeCategory(existing: News, news: News)
    requires IsNews(news) && news != []
    ensures var all := Merged(existing, news); SectionGroups(all, CategoryOrder(all)) != []
  {
    var (all, c) := (Merged(existing, news), news[0].category);
    FirstHeld(news);
    MergedGet(existing, news, c);
    SectionHolds(all, c);
    SortedIs(EntriesOf(all, c));
    hide Merged, Sorted, SectionGroups, CategoryOrder;
    assert news[0].entries != [] && |multiset(EntriesOf(all, c))| > 0;
    assert Sorted(EntriesOf(all, c)) != [];
    assert EntriesOf([], c) == [];
  }

  /** The blanks around a text that has none but a newline at both ends. */
  lemma StripOnce(s: string)
    requires EndsOnce(s) && !IsSpace(s[1])
    ensures "\n" + Strip(s) == s[..|s| - 1]
  {
    assert IsSpace('\n') && |s| != 2;
    var y := s[1..|s| - 1];
    assert y[0] == s[1] && y[|y| - 1] == s[|s| - 2];
    assert s == "\n" + y + "\n" && AllSpace("\n");
    StripBetween(y, "\n");
    assert "\n" + y == s[..|s| - 1];
  }

  lemma StripCalm(s: string)
    requires IsCalm(s) && IsTight(s) && s != "" && s[0] == '\n'
    ensures IsCalm("\n" + Strip(s)) && IsTight("\n" + Strip(s))
  {
    var t := LStrip(s);
    LStripShape(s);
    LStripTight(s);
    assert t[|t| - 1] == s[|s| - 1];
    assert Strip(s) == t;
    CalmPart(s, |s| - |t|, |s|);
    assert s[|s| - |t|..|s|] == t;
    assert s[0..] == s;
    LStripLead(t);
    hide Strip, LStrip, VersionAt;
    CalmAfter(t);
  }

  lemma CalmAfter(t: string)
    requires IsCalm(t) && VersionAt(LStrip(t)).None?
    ensures IsCalm("\n" + t)
  {
    var s := "\n" + t;
    LStripLead(t);
    Template.NoEscapeConcat("\n", t);
    hide Template.NoEscape, LStrip, VersionAt;
    forall i | 0 <= i < |s| ensures !EndsSection(s[i..]) {
      if i > 0 { assert s[i..] == t[i - 1..]; } else { assert s[0..] == s; }
    }
  }

  /** The section with the news in it ends nowhere early and expands to itself. */
  lemma MergedCalm(content: string, news: News, v: Version)
    requires content != "" && content[0] == '\n' && NoBoundary(content)
    requires Template.NoEscape(content[..NextCategory(content, CategoryStart(v))])
    requires GoodGroups(Parsed(content, CategoryStart(v)), Harmless(v)) && GoodGroups(news, Harmless(v))
             && IsNews(news) && news != []
    ensures var s := "\n" + MergedSection(content, news, CategoryStart(v)); IsCalm(s) && IsTight(s)
  {
    var anchor := CategoryStart(v);
    var (header, all) := (content[..NextCategory(content, anchor)], Merged(Parsed(content, anchor), news));
    hide *;
    var (h, cats) := (RStrip(header), Categories(all, anchor));
    HeaderCalm(content, NextCategory(content, anchor));
    MergedGood(Parsed(content, anchor), news, Harmless(v));
    HarmlessIsTame(all, v);
    CategoriesCalm(all, v);
    SomeCategory(Parsed(content, anchor), news);
    BlockCalm(h, cats);
    MergedSectionIs(content, news, anchor);
  }

  lemma HeaderCalm(content: string, k: nat)
    requires content != "" && content[0] == '\n' && NoBoundary(content) && k <= |content|
             && Template.NoEscape(content[..k])
    ensures var h := RStrip(content[..k]); IsCalm(h) && IsTight(h) && (h == "" || h[0] == '\n')
  {
    NoBoundaryPart(content, 0, k);
    var header := content[..k];
    assert content[0..k] == header && IsCalm(header);
    RStripShape(header);
    var h := RStrip(header);
    CalmPart(header, 0, |h|);
    assert header[0..|h|] == h;
  }

  lemma BlockCalm(h: string, cats: string)
    requires IsCalm(h) && IsTight(h) && (h == "" || h[0] == '\n')
    requires IsCalm(cats) && EndsOnce(cats) && cats[1] == '{'
    ensures var s := "\n" + Strip(h + "\n\n" + Strip(cats) + "\n"); IsCalm(s) && IsTight(s)
  {
    var x := "\n" + Strip(cats);
    assert !IsSpace('{') && IsSpace('\n');
    StripOnce(cats);
    CalmPart(cats, 0, |cats| - 1);
    assert cats[0..|cats| - 1] == x && IsTight(x);
    hide IsCalm, EndsOnce, Strip, IsSpace;
    CalmLead(x);
    var y := "\n" + x;
    CalmConcat(h, y);
    TightConcat(h, y) by { TightConcat("\n", x); }
    StripLast(h + y, '\n');
    assert h + y + ['\n'] == h + "\n\n" + Strip(cats) + "\n";
    StripCalm(h + y);
  }

  lemma BlockExpands(block: string, anchor: string, content: string)
    requires IsCalm("\n" + block)
    ensures Template.Expand(Template.HEAD + (block + "\n"), anchor, content) == Some(anchor + "\n" + (block + "\n"))
  {
    NoEscapePart("\n" + block, 1, |"\n" + block|);
    assert ("\n" + block)[1..|"\n" + block|] == block;
    Template.NoEscapeConcat(block, "\n") by { assert Template.IsKept('\n'); }
    hide Template.NoEscape, Template.Expand;
    var t := block + "\n";
    assert Template.IsPlain(t) by { assert t[|t| - 1..] == "\n" && "\n" != "\\"; }
    Template.PlainIsItself(t, anchor, content);
    Template.HeadExpands(t, anchor, content);
  }

  lemma UpdatedIs(text: string, v: Version, news: News)
    requires HasSection(text, v) && news != []
    requires var s := SectionOf(text, v); IsCalm("\n" + MergedSection(s.content, news, CategoryStart(v)))
    ensures var s := SectionOf(text, v);
            var block := MergedSection(s.content, news, CategoryStart(v));
            Updated(text, v, news) == Some(s.before + (VersionAnchor(v) + "\n" + (block + "\n")) + s.after)
  {
    var s := SectionOf(text, v);
    BlockExpands(MergedSection(s.content, news, CategoryStart(v)), VersionAnchor(v), s.content);
  }

  /** The text after a section: one blank line more, if anything is there. */
  function Pushed(after: string): string {
    if after == "" then "" else "\n" + after
  }

  lemma ReplacedText(before: string, anchor: string, block: string, after: string)
    ensures var content := "\n" + block + (if after == "" then "\n" else "");
            before + (anchor + "\n" + (block + "\n")) + after == before + anchor + content + Pushed(after)
    ensures var content := "\n" + block + (if after == "" then "\n" else "");
            before + anchor + content + Pushed(after) == before + anchor + (content + Pushed(after))
  {
  }

  lemma PushedEnds(after: string)
    requires after == "" || EndsSection(after)
    ensures Pushed(after) == "" || (EndsSection(Pushed(after)) && Pushed(after)[0] == '\n')
  {
    LStripLead(after);
  }

  lemma ReplacedEnd(block: string, after: string)
    requires IsCalm("\n" + block) && IsTight("\n" + block) && (after == "" || EndsSection(after))
    ensures var content := "\n" + block + (if after == "" then "\n" else "");
            SectionEnd(content + Pushed(after)) == |content| && Template.NoEscape(content) && content[0] == '\n'
  {
    var s := "\n" + block;
    PushedEnds(after);
    QuietIsCalm("\n");
    NewlineIsSpace();
    hide IsTight, EndsSection;
    assert s[0] == '\n';
    if after == "" {
      CalmConcat(s, "\n");
      EndAfter(s, "\n");
      assert SectionEnd("\n") == 1 by { NewlineEnd(); }
      assert s + "\n" + "" == s + "\n";
    } else {
      EndAfter(s, Pushed(after));
      EndHere(Pushed(after));
      assert s + "" == s;
    }
  }

  lemma NewlineEnd()
    ensures SectionEnd("\n") == 1
  {
    assert "\n"[1..] == "" && LStrip("\n") == LStrip("");
    assert VersionAt("").None?;
  }

  lemma ReplacedParsed(block: string, after: string, anchor: string)
    requires IsAnchor(anchor)
    ensures var content := "\n" + block + (if after == "" then "\n" else "");
            Parsed(content, anchor) == Parsed(block, anchor)
  {
    NewlineIsSpace();
    hide *;
    NextAfterBlank(block, anchor);
    ParsedLast("\n" + block, '\n', anchor);
    assert "\n" + block + "" == "\n" + block && "\n" + block + ['\n'] == "\n" + block + "\n";
  }

  /** Merging news into a section that is ready gives one that is ready too and
      holds both, sorted by category; around it the text gains a blank line. */
  lemma UpdatedReads(text: string, v: Version, news: News)
    requires IsReady(text, v) && GoodGroups(news, Harmless(v)) && IsNews(news) && news != []
    ensures var (s, all, r) := (SectionOf(text, v), Merged(Held(text, v), news), Updated(text, v, news));
            && r.Some? && IsReady(r.value, v) && Held(r.value, v) == SectionGroups(all, CategoryOrder(all))
            && SectionOf(r.value, v).before == s.before && SectionOf(r.value, v).after == Pushed(s.after)
  {
    var (s, anchor) := (SectionOf(text, v), CategoryStart(v));
    ReadySplits(text, v);
    AnchorChars(v);
    hide *;
    var all := Merged(Parsed(s.content, anchor), news);
    var block := MergedSection(s.content, news, anchor);
    var content := "\n" + block + (if s.after == "" then "\n" else "");
    MergedCalm(s.content, news, v);
    UpdatedIs(text, v, news);
    HarmlessIsReadable(news, v);
    HarmlessIsReadable(Parsed(s.content, anchor), v);
    MergedSectionRead(s.content, news, anchor);
    MergedGood(Parsed(s.content, anchor), news, Harmless(v));
    OrderIsGood(all, Harmless(v));
    SectionGood(all, CategoryOrder(all), Harmless(v));
    ReplacedText(s.before, VersionAnchor(v), block, s.after);
    ReplacedEnd(block, s.after);
    ReplacedParsed(block, s.after, anchor);
    AnchorPlaced(s.before, text, content + Pushed(s.after), v);
    ReadyIs(s.before, content, Pushed(s.after), v);
  }

  lemma ReadySplits(text: string, v: Version)
    requires IsReady(text, v)
    ensures HasSection(text, v)
    ensures var s := SectionOf(text, v);
            && Held(text, v) == Parsed(s.content, CategoryStart(v)) && GoodGroups(Held(text, v), Harmless(v))
            && s.content != "" && s.content[0] == '\n' && NoBoundary(s.content)
            && Template.NoEscape(s.content[..NextCategory(s.content, CategoryStart(v))])
            && (s.after == "" || EndsSection(s.after)) && s.before <= text && Find(text, VersionAnchor(v)) == |s.before|
  {
    hide SectionOf, NoBoundary, EndsSection, Find, VersionAnchor, CategoryStart, GoodGroups, Template.NoEscape;
    SectionSplits(text, v);
    var s := SectionOf(text, v);
    assert text == s.before + (VersionAnchor(v) + s.content + s.after);
  }

  // ------------------------------------------------------------- over many merges

  /** News added in turn, each with its date. */
  function AllAdded(text: string, v: Version, date: string, batches: seq<News>): Option<string> {
    if batches == [] then Some(text)
    else match AllAdded(text, v, date, batches[..|batches| - 1])
      case None => None
      case Some(t) => WithNews(t, v, date, batches[|batches| - 1])
  }

  /** The entries of a category in all of the news. */
  function Gathered(batches: seq<News>, c: string): seq<Entry> {
    if batches == [] then [] else Gathered(batches[..|batches| - 1], c) + EntriesOf(batches[|batches| - 1], c)
  }

  /** The text after the section, with a blank line more for each merge. */
  function PushedBy(after: string, batches: seq<News>): string {
    if batches == [] then after
    else
      var front := PushedBy(after, batches[..|batches| - 1]);
      if batches[|batches| - 1] == [] then front else Pushed(front)
  }

  ghost predicate AllNews(batches: seq<News>, v: Version) {
    forall i :: 0 <= i < |batches| ==> IsNews(batches[i]) && GoodGroups(batches[i], Harmless(v))
  }

  lemma {:induction false} AddedHeld(text: string, v: Version, date: string, batches: seq<News>, c: string)
    requires IsReady(text, v) && AllNews(batches, v)
             && Sorted(EntriesOf(Held(text, v), c)) == EntriesOf(Held(text, v), c)
    ensures var r := AllAdded(text, v, date, batches);
            && r.Some? && IsReady(r.value, v)
            && EntriesOf(Held(r.value, v), c) == Sorted(EntriesOf(Held(text, v), c) + Gathered(batches, c))
            && SectionOf(r.value, v).before == SectionOf(text, v).before
            && SectionOf(r.value, v).after == PushedBy(SectionOf(text, v).after, batches)
  {
    hide Held, HasSection, SectionOf, GoodGroups, Sorted, EntriesOf, IsNews, Updated, Created, Merged, SectionGroups,
         CategoryOrder;
    var was := EntriesOf(Held(text, v), c);
    ReadySplits(text, v);
    if batches == [] {
      assert was + Gathered(batches, c) == was;
    } else {
      var (front, last) := (batches[..|batches| - 1], batches[|batches| - 1]);
      assert last == batches[|batches| - 1] && AllNews(front, v);
      AddedHeld(text, v, date, front, c);
      var t := AllAdded(text, v, date, front).value;
      OneAdded(t, v, date, last, c, was + Gathered(front, c));
      assert was + Gathered(front, c) + EntriesOf(last, c) == was + Gathered(batches, c);
    }
  }

  lemma OneAdded(text: string, v: Version, date: string, news: News, c: string, es: seq<Entry>)
    requires IsReady(text, v) && IsNews(news) && GoodGroups(news, Harmless(v))
             && EntriesOf(Held(text, v), c) == Sorted(es)
    ensures var r := WithNews(text, v, date, news);
            && r.Some? && IsReady(r.value, v) && EntriesOf(Held(r.value, v), c) == Sorted(es + EntriesOf(news, c))
            && SectionOf(r.value, v).before == SectionOf(text, v).before
            && SectionOf(r.value, v).after == if news == [] then SectionOf(text, v).after
                 else Pushed(SectionOf(text, v).after)
  {
    assert Distinct(news);
    ReadySplits(text, v);
    assert news == [] ==> EntriesOf(news, c) == [];
    assert WithNews(text, v, date, news) == Updated(text, v, news);
    assert news == [] ==> Updated(text, v, news) == Some(text);
    hide *;
    if news == [] {
      assert es + EntriesOf(news, c) == es;
    } else {
      UpdatedReads(text, v, news);
      var all := Merged(Held(text, v), news);
      SectionHolds(all, c);
      MergedGet(Held(text, v), news, c);
      SortedIs(es);
      SortedUnique(Sorted(es) + EntriesOf(news, c), es + EntriesOf(news, c));
    }
  }

  /** A section created from some news and merged with any number of further news
      has, category by category, the same sorted entries as one created from all of
      them at once, in whatever order the files were read: no entry is lost, added
      or moved, and no merge fails. The text around it is only moved apart. */
  lemma IncrementalIsBatch(text: string, v: Version, date: string, news: News, batches: seq<News>, later: string,
                           all: News, c: string)
    requires !HasSection(text, v) && InsertionPoint(text, v).Some? && IsDate(date) && IsDate(later)
    requires GoodGroups(news, Harmless(v)) && AllNews(batches, v) && GoodGroups(all, Harmless(v))
    requires multiset(EntriesOf(all, c)) == multiset(EntriesOf(news, c)) + multiset(Gathered(batches, c))
    ensures var (first, whole, k) :=
              (Created(text, v, date, news), Created(text, v, later, all), InsertionPoint(text, v).value);
            && first.Some? && whole.Some?
            && var r := AllAdded(first.value, v, later, batches);
            && r.Some? && HasSection(r.value, v) && HasSection(whole.value, v)
            && EntriesOf(Held(r.value, v), c) == EntriesOf(Held(whole.value, v), c) == Sorted(EntriesOf(all, c))
            && multiset(EntriesOf(Held(r.value, v), c)) == multiset(EntriesOf(news, c)) + multiset(Gathered(batches, c))
            && SectionOf(r.value, v).before == text[..k]
            && SectionOf(r.value, v).after == PushedBy("\n\n\n" + text[k..], batches)
  {
    hide *;
    CreatedReads(text, v, date, news);
    CreatedReads(text, v, later, all);
    SectionHolds(news, c);
    SectionHolds(all, c);
    var (first, whole) := (Created(text, v, date, news).value, Created(text, v, later, all).value);
    var (mine, more) := (EntriesOf(news, c), Gathered(batches, c));
    SortedIs(mine);
    SortedUnique(Sorted(mine), mine);
    AddedHeld(first, v, later, batches, c);
    SortedUnique(Sorted(mine) + more, EntriesOf(all, c));
    SortedIs(EntriesOf(all, c));
    ReadySplits(whole, v);
    ReadySplits(AllAdded(first, v, later, batches).value, v);
  }
}
