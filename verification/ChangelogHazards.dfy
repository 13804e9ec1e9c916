/** Entries that the changelog loses, cuts or refuses: anchors and backslashes where
    the code does not expect them. */
module ChangelogHazards {
  import opened Text
  import opened Changelog
  import opened ChangelogReading
  import opened ChangelogFile
  import opened ChangelogSections
  import opened ChangelogMerge
  import Template

  // --------------------------------------------------- an anchor inside an entry

  lemma LastEntry(es: seq<Entry>) returns (s: string)
    requires es != []
    ensures EntriesText(es) == s + "\n" + es[|es| - 1]
  {
    var front := es[..|es| - 1];
    EntriesAppend(front, es[|es| - 1]);
    assert es == front + [es[|es| - 1]];
    s := EntriesText(front);
  }

  lemma LastText(a: string, top: string, heading: string, inner: string, e: string)
    ensures a + (top + (heading + (inner + "\n" + e)) + "\n") == a + top + heading + inner + "\n" + e + "\n"
  {
  }

  /** The text of categories ends with the last entry of the last. */
  lemma LastOfGroups(gs: seq<Group>, anchor: string) returns (s: string)
    requires gs != [] && gs[|gs| - 1].entries != []
    ensures var es := gs[|gs| - 1].entries; GroupsText(gs, anchor) == s + es[|es| - 1] + "\n"
  {
    var (front, g) := (gs[..|gs| - 1], gs[|gs| - 1]);
    var (top, heading) := (AnchorLine(g.category, anchor), "\n### " + Capitalized(g.category));
    GroupIs(g, anchor);
    hide *;
    assert gs == front + [g];
    GroupsAppend(front, g, anchor);
    var inner := LastEntry(g.entries);
    LastText(GroupsText(front, anchor), top, heading, inner, g.entries[|g.entries| - 1]);
    s := GroupsText(front, anchor) + top + heading + inner + "\n";
  }

  lemma GroupIs(g: Group, anchor: string)
    ensures GroupText(g, anchor)
            == AnchorLine(g.category, anchor) + ("\n### " + Capitalized(g.category) + EntriesText(g.entries)) + "\n"
  {
    hide AnchorLine, Capitalized, EntriesText;
  }

  lemma SplitEnd(e: string, tail: string) returns (s: string)
    requires EndsWith(e, tail)
    ensures e == s + tail
  {
    s := e[..|e| - |tail|];
  }

  /** When the last entry written ends with its own category's anchor, the whole
      category is read back empty, although it has entries. */
  lemma OwnAnchorEmptiesCategory(text: string, v: Version, date: string, news: News, c: string)
    requires !HasSection(text, v) && InsertionPoint(text, v).Some? && IsDate(date) && GoodGroups(news, Tame())
             && IsCategory(c)
    requires var gs := SectionGroups(news, CategoryOrder(news));
             gs != [] && gs[|gs| - 1].category == c &&
             var es := gs[|gs| - 1].entries; es != [] && EndsWith(es[|es| - 1], CategoryStart(v) + c + "}")
    ensures var r := Created(text, v, date, news);
            r.Some? && HasSection(r.value, v) && EntriesOf(Held(r.value, v), c) == []
    ensures EntriesOf(news, c) != []
  {
    var gs := SectionGroups(news, CategoryOrder(news));
    var (anchor, es) := (CategoryStart(v), gs[|gs| - 1].entries);
    var tail := anchor + c + "}";
    LastWins(gs, c);
    SectionHolds(news, c);
    assert Sorted([]) == [];
    CreatedPlaced(text, v, date, news);
    AnchorChars(v);
    NewlineIsSpace();
    NewSectionHas(Title(v, date), news, anchor);
    hide *;
    var s := SplitEnd(es[|es| - 1], tail);
    var top := LastOfGroups(gs, anchor);
    var (section, before) := (NewSection(Title(v, date), news, anchor), Title(v, date) + top + s);
    OwnText(Title(v, date), top, s, anchor, c);
    OwnAnchorLosesEntries(before, c, anchor);
    assert section == before + anchor + c + "}" + "\n";
    EndsOnceLast(section);
    ParsedLast(section[..|section| - 1], '\n', anchor);
    HeldIs(Created(text, v, date, news).value, v);
  }

  lemma OwnText(title: string, top: string, s: string, anchor: string, c: string)
    ensures title + (top + (s + (anchor + c + "}")) + "\n") == title + top + s + anchor + c + "}" + "\n"
  {
  }

  lemma NewSectionHas(header: string, news: News, anchor: string)
    requires SectionGroups(news, CategoryOrder(news)) != []
    ensures NewSection(header, news, anchor) == header + GroupsText(SectionGroups(news, CategoryOrder(news)), anchor)
  {
  }

  lemma EndsOnceLast(s: string)
    requires EndsOnce(s)
    ensures s[..|s| - 1] + ['\n'] == s
  {
  }

  lemma HeldIs(text: string, v: Version)
    requires HasSection(text, v)
    ensures Held(text, v) == Parsed(SectionOf(text, v).content, CategoryStart(v))
  {
  }

  // ------------------------------------------------------- a version on a line

  ghost function WellFormed(): iset<Entry> {
    iset e: Entry | IsWellFormed(e)
  }

  lemma BodyTight(g: Group)
    requires GoodGroup(g, WellFormed())
    ensures IsTight(BodyText(g)) && BodyText(g) != ""
  {
    hide IsWellFormed;
    forall e | e in g.entries ensures IsWellFormed(e) { assert e in WellFormed(); }
    BodyRead(g, "");
  }

  lemma {:induction false} GroupsEndOnce(gs: seq<Group>, anchor: string)
    requires GoodGroups(gs, WellFormed()) && gs != []
    ensures EndsOnce(GroupsText(gs, anchor))
  {
    hide BodyText, GroupsText, IsWellFormed, EndsOnce, IsTight, GoodGroup, WellFormed;
    var (g, rest) := (gs[0], gs[1..]);
    var (top, body) := (AnchorLine(g.category, anchor), BodyText(g));
    assert top != "" && top[0] == '\n';
    hide AnchorLine;
    assert GoodGroup(g, WellFormed()) && GoodGroups(rest, WellFormed());
    BodyTight(g);
    TightConcat(top, body);
    FirstOfGroups(gs, anchor);
    if rest == [] {
      EndsOnceNewline(top + body);
      assert GroupsText([], anchor) == "" by { NoGroups(anchor); }
      assert top + body + ("\n" + "") == top + body + "\n";
    } else {
      GroupsEndOnce(rest, anchor);
      EndsOnceConcat("\n", GroupsText(rest, anchor));
      EndsOnceConcat(top + body, "\n" + GroupsText(rest, anchor));
    }
  }

  lemma SectionEndsOnce(v: Version, date: string, news: News)
    requires IsDate(date) && GoodGroups(news, WellFormed())
    ensures EndsOnce(NewSection(Title(v, date), news, CategoryStart(v)))
  {
    QuietTitle(v, date);
    assert Title(v, date) != "" && EndsOnce(NOTHING);
    hide Title, GroupsText, EndsOnce, GoodGroups, SectionGroups, CategoryOrder, CategoryStart, IsDate, WellFormed;
    var gs := SectionGroups(news, CategoryOrder(news));
    OrderIsGood(news, WellFormed());
    SectionGood(news, CategoryOrder(news), WellFormed());
    if gs == [] {
      EndsOnceConcat(Title(v, date), NOTHING);
    } else {
      GroupsEndOnce(gs, CategoryStart(v));
      EndsOnceConcat(Title(v, date), GroupsText(gs, CategoryStart(v)));
    }
  }

  lemma CutContent(before: string, rest: string, v: Version)
    requires Find(before + VersionAnchor(v) + rest, VersionAnchor(v)) == |before|
    ensures var text := before + VersionAnchor(v) + rest;
            HasSection(text, v) && SectionOf(text, v).content == rest[..SectionEnd(rest)]
  {
    AnchorChars(v);
    hide VersionAnchor, SectionEnd, Find;
    var text := before + VersionAnchor(v) + rest;
    assert text[|before| + |VersionAnchor(v)|..] == rest;
  }

  /** All of a created section is read exactly when no line of it starts, after
      blanks, with the anchor of a version. */
  lemma CreatedIsWholeIff(text: string, v: Version, date: string, news: News)
    requires !HasSection(text, v) && InsertionPoint(text, v).Some? && IsDate(date) && GoodGroups(news, WellFormed())
    ensures var r := Created(text, v, date, news);
            var section := NewSection(Title(v, date), news, CategoryStart(v));
            && r.Some? && HasSection(r.value, v) && section != ""
            && SectionOf(r.value, v).content <= section
            && (SectionOf(r.value, v).content == section[..|section| - 1] <==> NoBoundary(section[..|section| - 1]))
  {
    assert Find(text, VersionAnchor(v)) >= |text|;
    hide *;
    var k := InsertionPoint(text, v).value;
    var section := NewSection(Title(v, date), news, CategoryStart(v));
    SectionEndsOnce(v, date, news);
    PointIsAnchor(text, v);
    var (content, after) := (section[..|section| - 1], "\n\n\n" + text[k..]);
    TopIsTight(section);
    AnchorEndsSection(text[k..]);
    SectionEndIff(content, after);
    AnchorPlaced(text[..k], text, content + after, v);
    CutContent(text[..k], content + after, v);
    PlacedText(text[..k], VersionAnchor(v), section, text[k..]);
    CreatedIs(text, v, date, news);
    EndsOnceLast(section);
    CutPrefix(content, after);
  }

  lemma TopIsTight(s: string)
    requires EndsOnce(s)
    ensures IsTight(s[..|s| - 1]) && s != ""
  {
  }

  lemma CutPrefix(content: string, after: string)
    requires IsTight(content) && EndsSection(after)
    ensures (content + after)[..SectionEnd(content + after)] <= content
    ensures (content + after)[..SectionEnd(content + after)] == content <==> SectionEnd(content + after) == |content|
  {
    assert (content + after)[|content|..] == after;
    EndWithin(content + after, |content|);
    hide SectionEnd;
    var n := SectionEnd(content + after);
    assert (content + after)[..n] == content[..n];
  }

  // -------------------------------------------------------- a backslash in an entry

  /** A letter that no escape has, so that the template raises an error. */
  predicate IsBadEscape(c: char) {
    Template.IsLetter(c) && c != 'g' && Template.Control(c).None?
  }

  /** News are refused when the merged section has, before any other escape, a
      backslash and a letter that is none. */
  lemma BadEscapeRefused(text: string, v: Version, news: News, s: string, c: char, t: string)
    requires HasSection(text, v) && news != [] && IsBadEscape(c) && Template.IsPlain(s)
    requires MergedSection(SectionOf(text, v).content, news, CategoryStart(v)) == s + ['\\', c] + t
    ensures Updated(text, v, news) == None
  {
    var content := SectionOf(text, v).content;
    var anchor := VersionAnchor(v);
    hide Template.IsPlain, VersionAnchor, MergedSection, SectionOf;
    Template.BadEscapeRaises(s, c, t + "\n", anchor, content);
    Template.HeadExpands(s + ['\\', c] + t + "\n", anchor, content);
    assert s + ['\\', c] + t + "\n" == s + ['\\', c] + (t + "\n");
  }

  // ------------------------------------------------------------- failing entries

  /** News with one entry, of a category that every release may have. */
  function Fixed(e: Entry): News {
    [Group("fixed", [e])]
  }

  lemma FixedIs(e: Entry, anchor: string)
    ensures SectionGroups(Fixed(e), CategoryOrder(Fixed(e))) == Fixed(e)
    ensures EntriesOf(Fixed(e), "fixed") == [e]
    ensures IsNews(Fixed(e)) && Merged([], Fixed(e)) == Fixed(e)
    ensures Categories(Fixed(e), anchor) == AnchorLine("fixed", anchor) + "\n### Fixed\n" + e + "\n"
  {
    assert Fixed(e)[..0] == [];
    assert Merged([], Fixed(e)) == Extended([], Group("fixed", [e]));
    FixedOnly(e);
    FixedOrder(e);
    FixedGroups(e);
    FixedText(e, anchor);
  }

  lemma FixedOrder(e: Entry)
    ensures CategoryOrder(Fixed(e)) == STANDARD
  {
    assert Fixed(e)[..0] == [] && "fixed" == STANDARD[2] && "fixed" in STANDARD;
    assert Extras(Fixed(e)) == [];
  }

  lemma FixedGroups(e: Entry)
    ensures SectionGroups(Fixed(e), STANDARD) == Fixed(e)
  {
    var (news, o) := (Fixed(e), STANDARD);
    FixedOnly(e);
    hide EntriesOf, Sorted;
    assert o[..3][..2] == o[..2] && o[..2][..1] == o[..1] && o[..1][..0] == [];
    assert SectionGroups(news, []) == [];
    assert SectionGroups(news, o[..1]) == [];
    assert SectionGroups(news, o[..2]) == [];
    assert SectionGroups(news, o[..3]) == news;
  }

  lemma FixedText(e: Entry, anchor: string)
    ensures GroupsText(Fixed(e), anchor) == AnchorLine("fixed", anchor) + "\n### Fixed\n" + e + "\n"
  {
    FixedHeading();
    var g := Group("fixed", [e]);
    assert [g][1..] == [] && [e][1..] == [];
    assert EntriesText([e]) == "\n" + e + "";
    GroupIs(g, anchor);
    NoGroups(anchor);
    hide AnchorLine, Capitalized, EntriesText, GroupText;
    assert GroupsText(Fixed(e), anchor) == GroupText(g, anchor) + "";
    assert "\n### " + "Fixed" + ("\n" + e + "") == "\n### Fixed\n" + e;
  }

  lemma FixedHeading()
    ensures Capitalized("fixed") == "Fixed"
  {
    assert "fixed"[1..] == "ixed" && Lower("ixed") == "ixed";
  }

  lemma FixedOnly(e: Entry)
    ensures Sorted([e]) == [e]
    ensures forall c :: EntriesOf(Fixed(e), c) == if c == "fixed" then [e] else []
  {
    assert [e][1..] == [];
    assert Fixed(e)[..0] == [];
  }

  lemma FixedIsCategory()
    ensures IsCategory("fixed")
  {
  }

  /** An entry that ends with the anchor of its own category, as in
      `* Foo, see {#v2-4-0-fixed}`, is lost. */
  lemma QuotedAnchorLosesEntry(text: string, v: Version, date: string, s: string)
    requires !HasSection(text, v) && InsertionPoint(text, v).Some? && IsDate(date)
    requires StartsWith(s, "* ") && '{' !in s && '\\' !in s && '\n' !in s
    ensures var (news, e) := (Fixed(s + (CategoryStart(v) + "fixed" + "}")), s + (CategoryStart(v) + "fixed" + "}"));
            var r := Created(text, v, date, news);
            && r.Some? && HasSection(r.value, v)
            && EntriesOf(news, "fixed") == [e] && EntriesOf(Held(r.value, v), "fixed") == []
  {
    var tail := CategoryStart(v) + "fixed" + "}";
    var e := s + tail;
    QuotingIsTame(s, v);
    FixedIs(e, CategoryStart(v));
    FixedIsCategory();
    assert EndsWith(e, tail);
    hide CategoryStart, SectionGroups, CategoryOrder, HasSection, Created, Held, InsertionPoint, Tame;
    OwnAnchorEmptiesCategory(text, v, date, Fixed(e), "fixed");
  }

  lemma QuotingIsTame(s: string, v: Version)
    requires StartsWith(s, "* ") && '{' !in s && '\\' !in s && '\n' !in s
    ensures s + (CategoryStart(v) + "fixed" + "}") in Tame()
  {
    var anchor := CategoryStart(v);
    AnchorChars(v);
    assert s[0] == '*' by { assert s[0] == "* "[0]; }
    hide CategoryStart;
    var e := s + (anchor + "fixed" + "}");
    var t := "\n" + e;
    assert e[|e| - 1] == '}';
    forall i | 0 <= i < |e| ensures e[i] != '\\' && e[i] != '\n' {
      var j := i - |s|;
      if 0 <= j < |anchor| { assert e[i] == anchor[j] && IsSpace('\n'); }
    }
    forall i | 0 <= i < |t| ensures !EndsSection(t[i..]) {
      if i > 0 { assert t[i..][0] == e[i - 1]; } else { BulletNoVersion(e); assert t[0..] == t; }
    }
    assert Template.NoEscape(t)
           by { forall i | 0 <= i < |t| ensures t[i] != '\\' { if i > 0 { assert t[i] == e[i - 1]; } } }
  }

  lemma BulletNoVersion(e: string)
    requires e != "" && e[0] == '*'
    ensures !EndsSection("\n" + e)
  {
    LStripLead(e);
    if VersionAt(e).Some? { VersionStart(e); }
  }

  lemma CutPlaced(text: string, k: nat, content: string, after: string, v: Version)
    requires k <= |text| && Find(text, VersionAnchor(v)) >= k && SectionEnd(content + after) == |content|
    ensures var t := text[..k] + VersionAnchor(v) + (content + after);
            HasSection(t, v) && SectionOf(t, v) == Section(text[..k], content, after)
  {
    hide *;
    AnchorPlaced(text[..k], text, content + after, v);
    assert text[..k] + VersionAnchor(v) + (content + after) == text[..k] + VersionAnchor(v) + content + after;
    SectionIs(text[..k], content, after, v);
  }

  lemma FixedHarmless(x: Entry, v: Version)
    requires x in Harmless(v)
    ensures GoodGroups(Fixed(x), Harmless(v))
  {
    hide Harmless;
    FixedIsCategory();
  }

  /** An entry that goes on with a line that starts, after blanks, with the anchor
      of a version is cut before that line; the rest is no part of the section. */
  lemma VersionLineCutsEntry(text: string, v: Version, date: string, x: Entry, z: string)
    requires !HasSection(text, v) && InsertionPoint(text, v).Some? && IsDate(date) && x in Harmless(v) && EndsSection(z)
    ensures var (k, r) := (InsertionPoint(text, v).value, Created(text, v, date, Fixed(x + z)));
            && r.Some? && HasSection(r.value, v)
            && EntriesOf(Held(r.value, v), "fixed") == [x]
            && SectionOf(r.value, v).after == z + ("\n\n\n" + text[k..])
  {
    assert Find(text, VersionAnchor(v)) >= |text|;
    hide *;
    var (k, anchor) := (InsertionPoint(text, v).value, CategoryStart(v));
    var whole := NewSection(Title(v, date), Fixed(x), anchor);
    FixedHarmless(x, v);
    HarmlessIsTame(Fixed(x), v);
    NewSectionCalm(v, date, Fixed(x));
    CalmSection(whole);
    var (content, after) := (whole[..|whole| - 1], z + ("\n\n\n" + text[k..]));
    CutSectionEnd(content, z, "\n\n\n" + text[k..]);
    CutPlaced(text, k, content, after, v);
    CutText(text, v, date, x, z);
    HeldIs(text[..k] + VersionAnchor(v) + (content + after), v);
    FixedRead(v, date, x);
  }

  lemma CutSectionEnd(content: string, z: string, rest: string)
    requires NoBoundary(content) && IsTight(content) && EndsSection(z)
    ensures SectionEnd(content + (z + rest)) == |content|
  {
    EndsGrows(z, rest);
    EndHere(z + rest);
    hide *;
    EndAfter(content, z + rest);
  }

  lemma FixedRead(v: Version, date: string, x: Entry)
    requires IsDate(date) && GoodGroups(Fixed(x), Harmless(v))
             && EndsOnce(NewSection(Title(v, date), Fixed(x), CategoryStart(v)))
    ensures var whole := NewSection(Title(v, date), Fixed(x), CategoryStart(v));
            whole != "" && EntriesOf(Parsed(whole[..|whole| - 1], CategoryStart(v)), "fixed") == [x]
  {
    EndsOnceLast(NewSection(Title(v, date), Fixed(x), CategoryStart(v)));
    NewlineIsSpace();
    hide *;
    var anchor := CategoryStart(v);
    var whole := NewSection(Title(v, date), Fixed(x), anchor);
    QuietTitle(v, date);
    AnchorChars(v);
    NoBrace(Title(v, date), anchor);
    HarmlessIsReadable(Fixed(x), v);
    NewSectionRead(Title(v, date), Fixed(x), anchor);
    ParsedLast(whole[..|whole| - 1], '\n', anchor);
    FixedIs(x, anchor);
  }

  lemma FixedSection(e: Entry, title: string, anchor: string)
    ensures NewSection(title, Fixed(e), anchor) == title + (AnchorLine("fixed", anchor) + "\n### Fixed\n" + e + "\n")
  {
    FixedIs(e, anchor);
    NewSectionHas(title, Fixed(e), anchor);
    FixedText(e, anchor);
  }

  lemma CutText(text: string, v: Version, date: string, x: Entry, z: string)
    requires InsertionPoint(text, v).Some?
    ensures var (k, whole) := (InsertionPoint(text, v).value, NewSection(Title(v, date), Fixed(x), CategoryStart(v)));
            && whole != ""
            && Created(text, v, date, Fixed(x + z)) ==
                 Some(text[..k] + VersionAnchor(v) + (whole[..|whole| - 1] + (z + ("\n\n\n" + text[k..]))))
  {
    hide *;
    var (k, anchor) := (InsertionPoint(text, v).value, CategoryStart(v));
    FixedSection(x, Title(v, date), anchor);
    FixedSection(x + z, Title(v, date), anchor);
    CreatedIs(text, v, date, Fixed(x + z));
    CutPieces(text[..k] + VersionAnchor(v), Title(v, date), AnchorLine("fixed", anchor) + "\n### Fixed\n", x, z,
        text[k..]);
  }

  lemma CutPieces(a: string, title: string, top: string, x: string, z: string, b: string)
    ensures var whole := title + (top + x + "\n");
            && whole != ""
            && a + (title + (top + (x + z) + "\n")) + "\n\n" + b == a + (whole[..|whole| - 1] + (z + ("\n\n\n" + b)))
  {
    var whole := title + (top + x + "\n");
    assert whole[..|whole| - 1] == title + (top + x);
  }

  lemma StripInto(a: string, b: string)
    requires LStrip(a) != "" && b != "" && IsTight(b)
    ensures Strip(a + b + "\n") == LStrip(a) + b
  {
    LStripConcat(a, b);
    StripLast(a + b, '\n');
    var t := LStrip(a) + b;
    assert t[|t| - 1] == b[|b| - 1];
  }

  lemma {:induction false} LStripPart(s: string)
    ensures |LStrip(s)| <= |s| && LStrip(s) == s[|s| - |LStrip(s)|..]
  {
    if s != "" && IsSpace(s[0]) { LStripPart(s[1..]); }
  }

  /** An entry with a backslash before a letter that no escape has, as in
      `* match \d+ in names`, stops the merge into a section without categories. */
  lemma EscapeStopsMerge(text: string, v: Version, p: string, c: char, q: string)
    requires IsReady(text, v) && Held(text, v) == [] && IsBadEscape(c)
    requires Template.IsPlain(p) && IsTight(['\\', c] + q)
    ensures Updated(text, v, Fixed(p + ['\\', c] + q)) == None
  {
    hide *;
    var (e, anchor) := (p + ['\\', c] + q, CategoryStart(v));
    ReadySplits(text, v);
    FixedIs(e, anchor);
    var content := SectionOf(text, v).content;
    var header := content[..NextCategory(content, anchor)];
    HeaderCalm(content, NextCategory(content, anchor));
    MergedSectionIs(content, Fixed(e), anchor);
    var s := EscapedBlock(RStrip(header), p, c, q, v);
    FixedSome(e);
    BadEscapeRefused(text, v, Fixed(e), s, c, q);
  }

  lemma FixedSome(e: Entry)
    ensures Fixed(e) != []
  {
  }

  lemma EscapedBlock(h: string, p: string, c: char, q: string, v: Version) returns (s: string)
    requires IsCalm(h) && IsTight(h) && Template.IsPlain(p) && IsBadEscape(c) && IsTight(['\\', c] + q)
    ensures var cats := AnchorLine("fixed", CategoryStart(v)) + "\n### Fixed\n" + (p + ['\\', c] + q) + "\n";
            Strip(h + "\n\n" + Strip(cats) + "\n") == s + ['\\', c] + q
    ensures Template.IsPlain(s)
  {
    var (top, tail) := (AnchorLine("fixed", CategoryStart(v)) + "\n### Fixed\n", ['\\', c] + q);
    var cats := top + (p + ['\\', c] + q) + "\n";
    var a := h + ("\n" + (top + p));
    FixedTop(v);
    hide AnchorLine, CategoryStart, IsBadEscape;
    EscapedCats(top, p, tail);
    assert cats == top + p + tail + "\n";
    BlockText(h, Strip(cats), top + p, tail);
    BraceRemains(h, top, p);
    PlainTop(h, top, p);
    StripInto(a, tail);
    s := LStrip(a);
    LStripPart(a);
    PlainPart(a, |a| - |s|);
    assert s + tail == s + ['\\', c] + q;
  }

  lemma BlockText(h: string, x: string, t: string, tail: string)
    requires "\n" + x == t + tail
    ensures h + "\n\n" + x + "\n" == h + ("\n" + t) + tail + "\n"
  {
    assert h + "\n\n" + x + "\n" == h + "\n" + ("\n" + x) + "\n";
    assert h + ("\n" + t) + tail + "\n" == h + "\n" + (t + tail) + "\n";
  }

  lemma FixedTop(v: Version)
    ensures var top := AnchorLine("fixed", CategoryStart(v)) + "\n### Fixed\n";
            |top| > 2 && top[0] == '\n' && top[1] == '{' && Template.NoEscape(top) && top[|top| - 1] == '\n'
  {
    FixedIsCategory();
    AnchorLineCalm("fixed", v);
    AnchorChars(v);
    hide CategoryStart;
    var a := AnchorLine("fixed", CategoryStart(v));
    assert a[1] == CategoryStart(v)[0] == "{#"[0];
    Template.NoEscapeConcat(a, "\n### Fixed\n") by { assert Template.NoEscape("\n### Fixed\n"); }
  }

  lemma EscapedCats(top: string, p: string, tail: string)
    requires |top| > 2 && top[0] == '\n' && top[1] == '{' && tail != "" && IsTight(tail)
    ensures "\n" + Strip(top + p + tail + "\n") == top + p + tail
  {
    var cats := top + p + tail + "\n";
    assert cats[|cats| - 2] == tail[|tail| - 1] && cats[0] == top[0] && cats[1] == top[1];
    assert !IsSpace('{');
    StripOnce(cats);
    assert cats[..|cats| - 1] == top + p + tail;
  }

  lemma BraceRemains(h: string, top: string, p: string)
    requires |top| > 2 && top[1] == '{'
    ensures LStrip(h + ("\n" + (top + p))) != ""
  {
    var a := h + ("\n" + (top + p));
    assert a[|h| + 2] == '{' && !IsSpace('{');
    NotBlank(a, |h| + 2);
  }

  lemma {:induction false} NotBlank(s: string, i: nat)
    requires i < |s| && !IsSpace(s[i])
    ensures LStrip(s) != ""
  {
    if IsSpace(s[0]) { NotBlank(s[1..], i - 1); }
  }

  lemma PlainTop(h: string, top: string, p: string)
    requires Template.NoEscape(h) && Template.NoEscape(top) && Template.IsPlain(p) && top != ""
             && top[|top| - 1] == '\n' && top[0] == '\n'
    ensures Template.IsPlain(h + ("\n" + (top + p)))
  {
    Template.NoEscapeConcat(top, p);
    assert (top + p)[0] == '\n' && Template.IsKept('\n');
    Template.NoEscapeConcat("\n", top + p);
    Template.NoEscapeConcat(h, "\n" + (top + p));
    var a := h + ("\n" + (top + p));
    hide Template.NoEscape;
    assert a[|a| - 1..] == [a[|a| - 1]];
    if p != "" {
      assert p[|p| - 1..] == [p[|p| - 1]] && a[|a| - 1] == p[|p| - 1];
    } else {
      assert a[|a| - 1] == top[|top| - 1];
    }
  }

  lemma PlainPart(s: string, k: nat)
    requires Template.IsPlain(s) && k <= |s|
    ensures Template.IsPlain(s[k..])
  {
    NoEscapePart(s, k, |s|);
    assert s[k..|s|] == s[k..];
    hide Template.NoEscape;
    if k < |s| { assert s[k..][|s| - k - 1..] == s[|s| - 1..]; }
  }
}
