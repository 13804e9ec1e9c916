/** The changelog file: the section of a version in its text, where a new section
    goes, and news added to it. */
module ChangelogFile {
  import opened Text
  import opened Decimal
  import opened Changelog
  import opened ChangelogReading
  import Template

  datatype Version = Version(major: nat, minor: nat, patch: nat)

  /** The order of the version tuples. */
  predicate Smaller(a: Version, b: Version) {
    a.major < b.major || (a.major == b.major && (a.minor < b.minor || (a.minor == b.minor && a.patch < b.patch)))
  }

  function Text3(v: Version, separator: char): string {
    FromNat(v.major) + [separator] + FromNat(v.minor) + [separator] + FromNat(v.patch)
  }

  function VersionAnchor(v: Version): string {
    "{#v" + Text3(v, '-') + "}"
  }

  /** What the anchors of a version's categories start with. */
  function CategoryStart(v: Version): string {
    "{#v" + Text3(v, '-') + "-"
  }

  /** A number up to `end`, and what follows. */
  function NumberUpTo(s: string, end: char): Option<(nat, string)> {
    var n := DigitRun(s);
    if n == 0 || n == |s| || s[n] != end then None else Some((ToNat(s[..n]), s[n + 1..]))
  }

  /** The three numbers of an anchor. */
  function NumbersAt(s: string): Option<Version> {
    match NumberUpTo(s, '-')
    case None => None
    case Some((major, rest)) =>
      match NumberUpTo(rest, '-')
      case None => None
      case Some((minor, tail)) =>
        match NumberUpTo(tail, '}')
        case None => None
        case Some((patch, _)) => Some(Version(major, minor, patch))
  }

  /** The version whose anchor `s` starts with. */
  function VersionAt(s: string): Option<Version> {
    if StartsWith(s, "{#v") then NumbersAt(s[3..]) else None
  }

  /** The versions anchored in a text, wherever their anchors stand; an anchor has
      no other inside. */
  function Versions(s: string): seq<Version> {
    if s == "" then []
    else (match VersionAt(s) case None => [] case Some(v) => [v]) + Versions(s[1..])
  }

  /** `_find_insertion_point`: at the first anchor of a smaller version; None is
      the ValueError. */
  function InsertionPoint(s: string, v: Version): (k: Option<nat>)
    ensures k.Some? ==> k.value < |s|
  {
    if s == "" then None
    else if VersionAt(s).Some? && Smaller(VersionAt(s).value, v) then Some(0)
    else match InsertionPoint(s[1..], v) case None => None case Some(k) => Some(k + 1)
  }

  method FindInsertionPoint(s: string, v: Version) returns (k: Option<nat>)
    ensures k == InsertionPoint(s, v)
  {
    hide VersionAt, Smaller;
    for i := 0 to |s|
      invariant InsertionPoint(s, v) == match InsertionPoint(s[i..], v) case None => None case Some(j) => Some(i + j)
    {
      assert s[i..][1..] == s[i + 1..] && s[i..] != "";
      var found := VersionAt(s[i..]);
      if found.Some? && Smaller(found.value, v) { return Some(i); }
    }
    k := None;
  }

  // ----------------------------------------------------------------- sections

  /** Where `part` is first found, or the end. */
  function Find(s: string, part: string): (k: nat)
    ensures k <= |s|
  {
    if s == "" || StartsWith(s, part) then 0 else 1 + Find(s[1..], part)
  }

  /** `version_anchor in changelog_content`. */
  predicate HasSection(text: string, v: Version) {
    Find(text, VersionAnchor(v)) < |text|
  }

  /** A newline, blanks and the anchor of some version. */
  predicate EndsSection(s: string) {
    s != "" && s[0] == '\n' && VersionAt(LStrip(s)).Some?
  }

  function SectionEnd(s: string): (n: nat)
    ensures n <= |s|
  {
    if s == "" || EndsSection(s) then 0 else 1 + SectionEnd(s[1..])
  }

  /** A text around the section of a version. */
  datatype Section = Section(before: string, content: string, after: string)

  function Divided(text: string, k: nat, m: nat): Section
    requires k + m <= |text|
  {
    var rest := text[k + m..];
    Section(text[..k], rest[..SectionEnd(rest)], rest[SectionEnd(rest)..])
  }

  function SectionOf(text: string, v: Version): Section
    requires HasSection(text, v)
  {
    FoundAt(text, VersionAnchor(v));
    Divided(text, Find(text, VersionAnchor(v)), |VersionAnchor(v)|)
  }

  lemma {:induction false} FoundAt(s: string, part: string)
    ensures Find(s, part) < |s| ==> StartsWith(s[Find(s, part)..], part) && Find(s, part) + |part| <= |s|
    ensures forall i :: 0 <= i < Find(s, part) ==> !StartsWith(s[i..], part)
  {
    if s != "" && !StartsWith(s, part) {
      FoundAt(s[1..], part);
      var n := Find(s[1..], part);
      assert s[1..][n..] == s[n + 1..];
      forall i | 0 <= i < n + 1 ensures !StartsWith(s[i..], part) {
        if i > 0 { assert s[1..][i - 1..] == s[i..]; } else { assert s[0..] == s; }
      }
    } else {
      assert s[0..] == s;
    }
  }

  /** What the section of a version is read as. */
  function Held(text: string, v: Version): News
    requires HasSection(text, v)
  {
    Parsed(SectionOf(text, v).content, CategoryStart(v))
  }

  const LINK: string := "]: https://" + "github.com/" + "bazel-contrib/" + "rules_python/" + "releases/tag/"

  function TitleLine(v: Version, date: string): string {
    "## [" + Text3(v, '.') + "] - " + date
  }

  function LinkLine(v: Version): string {
    "[" + Text3(v, '.') + LINK + Text3(v, '.')
  }

  /** The lines between the anchor of a new section and its categories. */
  function Title(v: Version, date: string): string {
    "\n" + TitleLine(v, date) + "\n\n" + LinkLine(v) + "\n"
  }

  /** The version is not there: a new section in front of the smaller versions. */
  function Created(text: string, v: Version, date: string, news: News): Option<string> {
    match InsertionPoint(text, v)
    case None => None
    case Some(k) =>
      Some(text[..k] + VersionAnchor(v) + NewSection(Title(v, date), news, CategoryStart(v)) + "\n\n" + text[k..])
  }

  /** The version is there: its section with the news in it, passed through the
      replacement template. No news, no change; None is the template's error. */
  function Updated(text: string, v: Version, news: News): Option<string>
    requires HasSection(text, v)
  {
    if news == [] then Some(text)
    else
      var s := SectionOf(text, v);
      var block := MergedSection(s.content, news, CategoryStart(v));
      match Template.Expand(Template.HEAD + (block + "\n"), VersionAnchor(v), s.content)
      case None => None
      case Some(section) => Some(s.before + section + s.after)
  }

  /** `_add_news_to_changelog`. */
  function WithNews(text: string, v: Version, date: string, news: News): Option<string> {
    if HasSection(text, v) then Updated(text, v, news) else Created(text, v, date, news)
  }

  // ------------------------------------------------------------------ methods

  lemma TitleLed(v: Version, date: string)
    ensures Led([VersionAnchor(v), TitleLine(v, date), "", LinkLine(v), ""]) == "\n" + VersionAnchor(v) + Title(v, date)
  {
    hide Led, TitleLine, LinkLine, VersionAnchor;
    var (title, link) := (TitleLine(v, date), LinkLine(v));
    var a := VersionAnchor(v);
    LedAppend([], a);
    LedAppend([a], title);
    LedAppend([a, title], "");
    LedAppend([a, title, ""], link);
    LedAppend([a, title, "", link], "");
    assert Led([]) == "" by { NothingLed(); }
    assert [] + [a] == [a] && [a] + [title] == [a, title] && [a, title] + [""] == [a, title, ""];
    assert [a, title, ""] + [link] == [a, title, "", link] && [a, title, "", link] + [""] == [a, title, "", link, ""];
  }

  lemma NothingLed()
    ensures Led([]) == ""
  {
  }

  /** `generate_release_block`. */
  method GenerateReleaseBlock(v: Version, date: string, news: News) returns (block: string)
    ensures block == VersionAnchor(v) + NewSection(Title(v, date), news, CategoryStart(v))
  {
    TitleLed(v, date);
    hide TitleLine, LinkLine, VersionAnchor, CategoryStart, Led, Joined, Title, Categories, SectionGroups,
         CategoryOrder;
    var top := [VersionAnchor(v), TitleLine(v, date), "", LinkLine(v), ""];
    var lines, hasEntries := AppendCategories(top, news, CategoryStart(v));
    CategoriesStart(news, CategoryStart(v));
    if !hasEntries {
      LedAppend(lines, "No notable changes.");
      LedAppend(lines + ["No notable changes."], "");
      lines := lines + ["No notable changes."] + [""];
    }
    LedJoined(lines);
    block := Joined(lines);
    SameAfter(block, VersionAnchor(v) + NewSection(Title(v, date), news, CategoryStart(v)));
  }

  lemma SameAfter(a: string, b: string)
    requires "\n" + a == "\n" + b
    ensures a == b
  {
    assert ("\n" + a)[1..] == a && ("\n" + b)[1..] == b;
  }

  lemma StrippedSame(lines: seq<string>, cats: string)
    requires Led(lines) == cats
    ensures Strip(Joined(lines)) == Strip(cats)
  {
    if lines != [] {
      LedJoined(lines);
      assert cats[0] == '\n' && IsSpace('\n') && cats[1..] == Joined(lines);
    }
  }

  lemma MergedAll(existing: News, news: News, i: nat)
    requires i < |news|
    ensures Merged(existing, news[..i + 1]) == Extended(Merged(existing, news[..i]), news[i])
  {
    assert news[..i + 1][..i] == news[..i];
  }

  /** The section with the news in it, as the loops build it. */
  method MergeIntoSection(content: string, news: News, anchor: string) returns (block: string)
    ensures block == MergedSection(content, news, anchor)
  {
    hide Merged, Parsed, Led, Strip, RStrip, Joined, Categories;
    var header := content[..NextCategory(content, anchor)];
    var existing := ParseCategories(content, anchor);
    var merged := existing;
    assert Merged(existing, []) == existing by { NothingMerged(existing); }
    for i := 0 to |news|
      invariant merged == Merged(existing, news[..i])
    {
      MergedAll(existing, news, i);
      merged := Extended(merged, news[i]);
    }
    assert news[..|news|] == news;
    var lines, _ := AppendCategories([], merged, anchor);
    NothingLed();
    StrippedSame(lines, Categories(merged, anchor));
    block := Strip(RStrip(header) + "\n\n" + Strip(Joined(lines)) + "\n");
  }

  lemma NothingMerged(existing: News)
    ensures Merged(existing, []) == existing
  {
  }

  /** `_add_news_to_changelog`. */
  method AddNewsToChangelog(text: string, v: Version, date: string, news: News) returns (changelog: Option<string>)
    ensures changelog == WithNews(text, v, date, news)
  {
    hide MergedSection, NewSection, HasSection, SectionOf, InsertionPoint;
    if HasSection(text, v) {
      if news == [] { return Some(text); }
      var s := SectionOf(text, v);
      var block := MergeIntoSection(s.content, news, CategoryStart(v));
      var section := Template.Expand(Template.HEAD + (block + "\n"), VersionAnchor(v), s.content);
      if section.None? { return None; }
      changelog := Some(s.before + section.value + s.after);
    } else {
      var block := GenerateReleaseBlock(v, date, news);
      var point := FindInsertionPoint(text, v);
      if point.None? { return None; }
      changelog := Some(text[..point.value] + block + "\n\n" + text[point.value..]);
      assert text[..point.value] + block
             == text[..point.value] + VersionAnchor(v) + NewSection(Title(v, date), news, CategoryStart(v));
    }
  }
}
