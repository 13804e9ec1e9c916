/** The order of the versions in the changelog, and where a new one goes. */
module ChangelogOrder {
  import opened Text
  import opened Changelog
  import opened ChangelogReading
  import opened ChangelogFile
  import opened ChangelogSections
  import opened ChangelogMerge

  ghost predicate Decreasing(vs: seq<Version>) {
    forall i, j :: 0 <= i < j < |vs| ==> Smaller(vs[j], vs[i])
  }

  lemma {:induction false} VersionsConcat(a: string, b: string)
    requires IsBreakAfter(b)
    ensures Versions(a + b) == Versions(a) + Versions(b)
  {
    hide VersionAt, IsBreakAfter;
    if a == "" {
      assert a + b == b;
    } else {
      assert (a + b)[1..] == a[1..] + b;
      VersionAtBreak(a, b);
      VersionsConcat(a[1..], b);
    }
  }

  ghost predicate NoneSmaller(vs: seq<Version>, v: Version) {
    forall u :: u in vs ==> !Smaller(u, v)
  }

  /** What comes before the point is not smaller, what is at it is. */
  lemma {:induction false} PointSplits(s: string, v: Version)
    ensures InsertionPoint(s, v).None? <==> NoneSmaller(Versions(s), v)
    ensures InsertionPoint(s, v).Some? ==>
              var k := InsertionPoint(s, v).value;
              && StartsWith(s[k..], "{") && NoneSmaller(Versions(s[..k]), v)
              && Versions(s[k..]) != [] && Smaller(Versions(s[k..])[0], v)
  {
    hide VersionAt, Smaller;
    if s != "" {
      PointSplits(s[1..], v);
      var found := VersionAt(s);
      if found.Some? && Smaller(found.value, v) {
        VersionStart(s);
        assert found.value in Versions(s) && Versions(s[..0]) == [] && s[0..] == s;
      } else {
        match InsertionPoint(s[1..], v) {
          case None =>
          case Some(k) => PointAfter(s, k, v);
        }
      }
    }
  }

  lemma PointAfter(s: string, k: nat, v: Version)
    requires s != "" && k < |s| - 1 && (VersionAt(s).None? || !Smaller(VersionAt(s).value, v))
    requires StartsWith(s[1..][k..], "{") && NoneSmaller(Versions(s[1..][..k]), v)
    requires Versions(s[1..][k..]) != [] && Smaller(Versions(s[1..][k..])[0], v)
    ensures StartsWith(s[k + 1..], "{") && NoneSmaller(Versions(s[..k + 1]), v)
    ensures s[k + 1..] == s[1..][k..]
    ensures !NoneSmaller(Versions(s), v)
  {
    SplitAfter(s, k);
    var (a, b) := (s[..k + 1], s[k + 1..]);
    assert IsBreakAfter(b);
    hide VersionAt, Smaller, IsBreakAfter, Versions;
    VersionAtBreak(a, b);
    VersionsConcat(a, b);
    VersionsFirst(a);
    assert Versions(b)[0] in Versions(s);
  }

  lemma SplitAfter(s: string, k: nat)
    requires k < |s| - 1
    ensures s[..k + 1][1..] == s[1..][..k] && s[k + 1..] == s[1..][k..] && s == s[..k + 1] + s[k + 1..]
  {
  }

  lemma VersionsFirst(s: string)
    requires s != ""
    ensures Versions(s) == (match VersionAt(s) case None => [] case Some(v) => [v]) + Versions(s[1..])
  {
    hide VersionAt;
  }

  /** The point in two texts put together. */
  lemma {:induction false} PointConcat(a: string, b: string, v: Version)
    requires IsBreakAfter(b)
    ensures InsertionPoint(a + b, v) ==
              if InsertionPoint(a, v).Some? then InsertionPoint(a, v)
              else match InsertionPoint(b, v) case None => None case Some(k) => Some(|a| + k)
  {
    hide VersionAt, Smaller, IsBreakAfter;
    if a == "" {
      assert a + b == b;
    } else {
      assert (a + b)[1..] == a[1..] + b;
      VersionAtBreak(a, b);
      PointConcat(a[1..], b, v);
    }
  }

  // ------------------------------------------------------- versions of a section

  lemma {:induction false} QuietVersions(s: string)
    requires '{' !in s
    ensures Versions(s) == []
  {
    if s != "" {
      if VersionAt(s).Some? { VersionStart(s); }
      hide VersionAt;
      QuietVersions(s[1..]);
    }
  }

  /** Entries that quote no version's anchor, wherever it would stand. */
  ghost function Unversioned(): iset<Entry> {
    iset e: Entry | Versions(e) == []
  }

  lemma LineVersions(a: string, b: string)
    requires Versions(a) == [] && Versions(b) == [] && (b == "" || b[0] == '\n')
    ensures Versions(a + b) == []
  {
    hide Versions;
    VersionsConcat(a, b);
  }

  lemma {:induction false} EntriesVersions(es: seq<Entry>)
    requires forall e :: e in es ==> e in Unversioned()
    ensures Versions(EntriesText(es)) == []
  {
    hide Versions;
    if es == [] {
      QuietVersions("");
    } else {
      EntriesVersions(es[1..]);
      assert es[0] in es && Versions(es[0]) == [];
      LedVersions(es[0]);
      LineVersions("\n" + es[0], EntriesText(es[1..]));
    }
  }

  lemma LedVersions(s: string)
    ensures Versions("\n" + s) == Versions(s)
  {
    if VersionAt("\n" + s).Some? { VersionStart("\n" + s); }
    hide VersionAt;
    assert ("\n" + s)[1..] == s && [] + Versions(s) == Versions(s);
  }

  /** What follows the first character of an anchor has no other. */
  lemma AnchorTail(s: string)
    requires s != "" && '{' !in s[1..]
    ensures Versions(s) == match VersionAt(s) case None => [] case Some(v) => [v]
  {
    QuietVersions(s[1..]);
    hide VersionAt;
  }

  lemma AnchorLineVersions(c: string, v: Version)
    requires IsCategory(c)
    ensures Versions(AnchorLine(c, CategoryStart(v))) == []
  {
    var (anchor, s) := (CategoryStart(v), CategoryStart(v) + (c + "}"));
    AnchorChars(v);
    AnchorRoundTrip(v, c + "}");
    hide CategoryStart, VersionAt, Versions;
    forall i | 0 <= i < |s[1..]| ensures s[1..][i] != '{' {
      if i + 1 < |anchor| { assert s[1..][i] == anchor[i + 1]; }
      else if i + 1 < |s| - 1 { assert s[1..][i] == c[i + 1 - |anchor|] && IsLower(c[i + 1 - |anchor|]); }
    }
    AnchorTail(s);
    LedVersions(s);
    assert AnchorLine(c, anchor) == "\n" + s;
  }

  lemma GroupVersions(g: Group, v: Version)
    requires GoodGroup(g, Unversioned())
    ensures Versions(GroupText(g, CategoryStart(v))) == []
  {
    AnchorLineVersions(g.category, v);
    BodyVersions(g);
    QuietVersions("\n");
    var top := AnchorLine(g.category, CategoryStart(v));
    hide Versions, AnchorLine, CategoryStart, Capitalized, EntriesText;
    LineVersions(top, BodyText(g));
    LineVersions(top + BodyText(g), "\n");
  }

  lemma BodyVersions(g: Group)
    requires GoodGroup(g, Unversioned())
    ensures Versions(BodyText(g)) == []
  {
    HeadingVersions(g.category);
    EntriesVersions(g.entries);
    hide Versions, Capitalized;
    LineVersions("\n### " + Capitalized(g.category), EntriesText(g.entries));
  }

  lemma HeadingVersions(c: string)
    requires IsCategory(c)
    ensures Versions("\n### " + Capitalized(c)) == []
  {
    var heading := "\n### " + Capitalized(c);
    forall i | 0 <= i < |heading| ensures heading[i] != '{' {
      if i >= 5 { assert heading[i] == Capitalized(c)[i - 5]; NameIsLetters(c, i - 5); }
    }
    hide Versions, Capitalized;
    QuietVersions(heading);
  }

  lemma {:induction false} GroupsVersions(gs: seq<Group>, v: Version)
    requires GoodGroups(gs, Unversioned())
    ensures Versions(GroupsText(gs, CategoryStart(v))) == []
  {
    hide Versions, GoodGroup, CategoryStart, GroupText;
    if gs == [] {
      QuietVersions("");
    } else {
      assert GoodGroup(gs[0], Unversioned()) && GoodGroups(gs[1..], Unversioned());
      GroupVersions(gs[0], v);
      GroupsVersions(gs[1..], v);
      if gs[1..] != [] { FirstOfGroups(gs[1..], CategoryStart(v)); }
      LineVersions(GroupText(gs[0], CategoryStart(v)), GroupsText(gs[1..], CategoryStart(v)));
    }
  }

  lemma OwnVersion(v: Version)
    ensures Versions(VersionAnchor(v)) == [v]
  {
    AnchorChars(v);
    AnchorRoundTrip(v, "");
    hide VersionAnchor, VersionAt;
    var s := VersionAnchor(v);
    assert s + "" == s;
    forall i | 0 <= i < |s[1..]| ensures s[1..][i] != '{' { assert s[1..][i] == s[i + 1]; }
    AnchorTail(s);
  }

  /** A new section anchors its version only. */
  lemma SectionVersions(v: Version, date: string, news: News)
    requires IsDate(date) && GoodGroups(news, Unversioned())
    ensures Versions(VersionAnchor(v) + NewSection(Title(v, date), news, CategoryStart(v)) + "\n\n") == [v]
  {
    var (title, anchor) := (Title(v, date), CategoryStart(v));
    QuietTitle(v, date);
    QuietVersions(title);
    QuietVersions("\n\n");
    assert '{' !in NOTHING;
    QuietVersions(NOTHING);
    hide *;
    OwnVersion(v);
    OrderIsGood(news, Unversioned());
    SectionGood(news, CategoryOrder(news), Unversioned());
    GroupsVersions(SectionGroups(news, CategoryOrder(news)), v);
    CategoriesStart(news, anchor);
    SectionParts(v, title, news);
  }

  lemma SectionParts(v: Version, title: string, news: News)
    requires Versions(VersionAnchor(v)) == [v] && Versions(title) == [] && title != "" && title[0] == '\n'
    requires Versions(NOTHING) == [] && Versions("\n\n") == [] && Versions(Categories(news, CategoryStart(v))) == []
    requires Categories(news, CategoryStart(v)) == "" || Categories(news, CategoryStart(v))[0] == '\n'
    ensures Versions(VersionAnchor(v) + NewSection(title, news, CategoryStart(v)) + "\n\n") == [v]
  {
    hide Versions, VersionAnchor, Categories, SectionGroups, CategoryOrder, CategoryStart;
    var rest := if SectionGroups(news, CategoryOrder(news)) == [] then NOTHING else Categories(news, CategoryStart(v));
    LineVersions(title, rest);
    VersionsConcat(VersionAnchor(v), title + rest);
    VersionsConcat(VersionAnchor(v) + (title + rest), "\n\n");
  }

  // ------------------------------------------------------------------- in order

  lemma OrderedBetween(a: seq<Version>, v: Version, b: seq<Version>)
    requires Decreasing(a + b) && v !in a + b && b != [] && Smaller(b[0], v) && NoneSmaller(a, v)
    ensures Decreasing(a + [v] + b)
    ensures multiset(a + [v] + b) == multiset(a + b) + multiset{v}
  {
    var all := a + b;
    var vs := a + [v] + b;
    forall i, j | 0 <= i < j < |vs| ensures Smaller(vs[j], vs[i]) {
      if j == |a| {
        assert vs[i] in a && vs[i] in all;
      } else if i == |a| {
        var k := j - |a| - 1;
        if k > 0 { assert Smaller(all[|a| + k], all[|a|]); }
      } else {
        var (p, q) := (if i < |a| then i else i - 1, if j < |a| then j else j - 1);
        assert vs[i] == all[p] && vs[j] == all[q];
      }
    }
  }

  /** A changelog in decreasing order stays so when a new version is added with
      entries that quote no version, and the version can be added exactly when some
      older one is there. */
  lemma InsertKeepsOrder(text: string, v: Version, date: string, news: News)
    requires Decreasing(Versions(text)) && v !in Versions(text) && IsDate(date) && GoodGroups(news, Unversioned())
    ensures Created(text, v, date, news).Some? <==> exists u :: u in Versions(text) && Smaller(u, v)
    ensures Created(text, v, date, news).Some? ==>
              var vs := Versions(Created(text, v, date, news).value);
              Decreasing(vs) && multiset(vs) == multiset(Versions(text)) + multiset{v}
  {
    PointSplits(text, v);
    var point := InsertionPoint(text, v);
    hide InsertionPoint, Versions, Decreasing, Smaller, GoodGroups, VersionAnchor, NewSection, Title, CategoryStart;
    if point.Some? {
      var (a, b) := (text[..point.value], text[point.value..]);
      var block := VersionAnchor(v) + NewSection(Title(v, date), news, CategoryStart(v)) + "\n\n";
      assert text == a + b && b[0] == '{';
      SectionVersions(v, date, news);
      assert block[0] == '{' by { BlockStart(v, NewSection(Title(v, date), news, CategoryStart(v))); }
      VersionsConcat(a, b);
      VersionsConcat(block, b);
      VersionsConcat(a, block + b);
      assert a + (block + b) == a + VersionAnchor(v) + NewSection(Title(v, date), news, CategoryStart(v)) + "\n\n" + b;
      OrderedBetween(Versions(a), v, Versions(b));
      assert Versions(a) + ([v] + Versions(b)) == Versions(a) + [v] + Versions(b);
    }
  }

  lemma BlockStart(v: Version, section: string)
    ensures (VersionAnchor(v) + section + "\n\n")[0] == '{'
  {
    AnchorChars(v);
    hide VersionAnchor;
    assert (VersionAnchor(v) + section + "\n\n")[0] == VersionAnchor(v)[0] == "{#"[0];
  }

  /** A new version goes into the text of a section, and splits it, exactly when
      no version before the section is smaller and one quoted in it is. */
  lemma SplitsSectionIff(before: string, section: string, after: string, v: Version)
    requires IsBreakAfter(section) && IsBreakAfter(after)
    ensures var point := InsertionPoint(before + section + after, v);
            (point.Some? && |before| <= point.value < |before| + |section|)
            <==> NoneSmaller(Versions(before), v) && !NoneSmaller(Versions(section), v)
  {
    var rest := section + after;
    BreakBefore(section, after);
    hide *;
    PointSplits(before, v);
    PointSplits(section, v);
    assert before + section + after == before + rest;
    PointConcat(before, rest, v);
    PointConcat(section, after, v);
  }

  lemma BreakBefore(a: string, b: string)
    requires IsBreakAfter(a) && IsBreakAfter(b)
    ensures IsBreakAfter(a + b)
  {
    if a == "" { assert a + b == b; }
  }
}
