/** How a changelog section is laid out: the order of its categories and of the
    entries in each, and what stands around them. */
module ChangelogLayout {
  import opened Text
  import opened Decimal
  import opened Changelog
  import opened ChangelogReading
  import opened ChangelogFile
  import opened ChangelogSections
  import opened ChangelogMerge

  // ------------------------------------------------------------------- the lines

  /** What the parser takes lines and characters for: bullets are `* ` and `- `, blank
      lines and headings are skipped, and lines end at Python's ASCII line breaks. */
  lemma LinesAre(line: string, c: char)
    ensures IsBullet(line) <==> |line| >= 2 && (line[0] == '*' || line[0] == '-') && line[1] == ' '
    ensures IsBreak(c) <==>
              c == '\n' || c == '\U{B}' || c == '\U{C}' || c == '\r' || c == '\U{1C}' || c == '\U{1D}' || c == '\U{1E}'
    ensures IsSkipped(line) <==> Strip(line) == "" || (|Strip(line)| >= 4 && Strip(line)[..4] == "### ")
  {
    assert "* " == ['*', ' '] && "- " == ['-', ' '];
    assert |line| >= 2 ==> line[..2] == [line[0], line[1]];
    hide Strip;
    var s := Strip(line);
    assert "### " <= s <==> |s| >= 4 && s[..4] == "### ";
  }

  // ------------------------------------------------------------------ the sort key

  /** A bullet, blanks, and between parentheses the text from `i` up to `j`. */
  ghost predicate IsTag(e: Entry, i: nat, j: nat) {
    && 1 < i < j < |e| && (e[0] == '*' || e[0] == '-')
    && (forall k :: 1 <= k < i - 1 ==> IsSpace(e[k])) && e[i - 1] == '('
    && (forall k :: i <= k < j ==> e[k] != ')') && e[j] == ')'
  }

  lemma {:induction false} LStripIs(s: string, n: nat)
    requires n <= |s| && (forall k :: 0 <= k < n ==> IsSpace(s[k])) && (n < |s| ==> !IsSpace(s[n]))
    ensures LStrip(s) == s[n..]
  {
    if n > 0 {
      assert s[1..][n - 1..] == s[n..];
      LStripIs(s[1..], n - 1);
    }
  }

  /** An entry's sub-category is the lower-cased text in its first parentheses, if
      they follow the bullet and are neither empty nor left open. */
  lemma SubCategoryIs(e: Entry, i: nat, j: nat)
    ensures IsTag(e, i, j) ==> SubCategory(e) == Lower(e[i..j])
    ensures SubCategory(e) != "" ==> exists m, n :: IsTag(e, m, n)
  {
    if IsTag(e, i, j) { TaggedIs(e, i, j); }
    if SubCategory(e) != "" { TagIsThere(e); }
  }

  lemma TaggedIs(e: Entry, i: nat, j: nat)
    requires IsTag(e, i, j)
    ensures SubCategory(e) == Lower(e[i..j])
  {
    hide Lower;
    assert forall k :: 0 <= k < |e| - 1 ==> e[1..][k] == e[k + 1];
    assert !IsSpace('(');
    LStripIs(e[1..], i - 2);
    var rest := LStrip(e[1..]);
    assert rest == e[i - 1..] && rest[1..] == e[i..];
    assert forall k :: 0 <= k < |e| - i ==> e[i..][k] == e[i + k];
    IndexOfIs(rest[1..], ')', j - i);
    assert rest[1..][..j - i] == e[i..j];
  }

  lemma TagIsThere(e: Entry)
    requires SubCategory(e) != ""
    ensures exists m, n :: IsTag(e, m, n)
  {
    hide Lower;
    var rest := LStrip(e[1..]);
    LStripShape(e[1..]);
    StrippedAreBlank(e[1..]);
    var m := |e| - |rest| + 1;
    var n := m + IndexOf(rest[1..], ')');
    assert rest == e[m - 1..] && rest[1..] == e[m..];
    assert forall k :: 1 <= k < m - 1 ==> e[k] == e[1..][k - 1];
    assert forall k :: 0 <= k < |rest| - 1 ==> rest[1..][k] == e[m + k];
    assert IsTag(e, m, n);
  }

  lemma {:induction false} StrippedAreBlank(s: string)
    ensures forall k :: 0 <= k < |s| - |LStrip(s)| ==> IsSpace(s[k])
  {
    if s != "" && IsSpace(s[0]) {
      StrippedAreBlank(s[1..]);
      assert forall k :: 0 < k < |s| ==> s[k] == s[1..][k - 1];
    }
  }

  // ------------------------------------------------------------ sorted entries

  ghost predicate InOrder(es: seq<Entry>) {
    forall i, j :: 0 <= i < j < |es| ==>
      Less(SubCategory(es[i]), SubCategory(es[j]))
      || (SubCategory(es[i]) == SubCategory(es[j]) && (es[i] == es[j] || Less(es[i], es[j])))
  }

  lemma {:induction false} InsertedInOrder(x: Entry, es: seq<Entry>)
    requires InOrder(es)
    ensures InOrder(Insert(x, es))
  {
    hide Less, SubCategory;
    if es != [] && !Before(x, es[0]) {
      var rest := Insert(x, es[1..]);
      InsertedInOrder(x, es[1..]);
      InsertIs(x, es[1..]);
      BeforeTotal(x, es[0]);
      forall j | 0 <= j < |rest| ensures Before(es[0], rest[j]) {
        assert rest[j] in rest;
        if rest[j] != x {
          var k :| 0 <= k < |es[1..]| && es[1..][k] == rest[j];
          assert es[k + 1] == rest[j];
        }
      }
      assert forall j :: 0 < j < |rest| + 1 ==> ([es[0]] + rest)[j] == rest[j - 1];
    } else if es != [] {
      forall j | 0 <= j < |es| ensures Before(x, es[j]) {
        if j > 0 { BeforeTransitive(x, es[0], es[j]); }
      }
      assert forall j :: 0 < j < |es| + 1 ==> ([x] + es)[j] == es[j - 1];
    }
  }

  /** A category's entries come by sub-category, then by text. */
  lemma {:induction false} SortedInOrder(es: seq<Entry>)
    ensures InOrder(Sorted(es)) && multiset(Sorted(es)) == multiset(es)
  {
    SortedIs(es);
    hide InOrder, Insert;
    if es != [] {
      SortedInOrder(es[1..]);
      InsertedInOrder(es[0], Sorted(es[1..]));
    } else {
      NothingInOrder();
    }
  }

  lemma NothingInOrder()
    ensures InOrder([])
  {
  }

  // --------------------------------------------------------- the order of categories

  /** Removals, changes, fixes and additions come in this order, before the rest. */
  function Rank(category: string): nat {
    if category == "removed" then 0
    else if category == "changed" then 1
    else if category == "fixed" then 2
    else if category == "added" then 3
    else 4
  }

  /** `a` is first found before `b` is. */
  ghost predicate FoundBefore(news: News, a: string, b: string) {
    exists i :: 0 <= i < |news| && news[i].category == a && forall j :: 0 <= j <= i ==> news[j].category != b
  }

  ghost predicate CategoriesInOrder(news: News, order: seq<string>) {
    forall i, j :: 0 <= i < j < |order| ==>
      Rank(order[i]) < Rank(order[j])
          || (Rank(order[i]) == Rank(order[j]) == 4 && FoundBefore(news, order[i], order[j]))
  }

  lemma FoundInFront(news: News, a: string, b: string)
    requires news != [] && FoundBefore(news[..|news| - 1], a, b)
    ensures FoundBefore(news, a, b)
  {
    var front := news[..|news| - 1];
    var i :| 0 <= i < |front| && front[i].category == a && forall j :: 0 <= j <= i ==> front[j].category != b;
    assert news[i].category == a && forall j :: 0 <= j <= i ==> news[j].category == front[j].category;
  }

  ghost predicate Has(news: News, c: string) {
    exists i :: 0 <= i < |news| && news[i].category == c
  }

  lemma StandardIs(c: string)
    ensures c in STANDARD <==> Rank(c) < 4
    ensures Rank("removed") == 0 && Rank("changed") == 1 && Rank("fixed") == 2 && Rank("added") == 3
  {
    assert "removed"[0] == 'r' && "changed"[0] == 'c' && "fixed"[0] == 'f' && "added"[0] == 'a';
  }

  /** The other categories come as they are first found. */
  lemma {:induction false} ExtrasAre(news: News)
    ensures forall c :: c in Extras(news) <==> Has(news, c) && Rank(c) == 4
    ensures CategoriesInOrder(news, Extras(news))
  {
    if news != [] {
      var (front, c) := (news[..|news| - 1], news[|news| - 1].category);
      ExtrasAre(front);
      StandardIs(c);
      hide Rank;
      forall x ensures Has(news, x) <==> x == c || Has(front, x) { HasStep(news, x); }
      var before := Extras(front);
      forall i, j | 0 <= i < j < |Extras(news)|
        ensures Rank(Extras(news)[i]) == Rank(Extras(news)[j]) == 4
                && FoundBefore(news, Extras(news)[i], Extras(news)[j])
      {
        assert before[i] in before;
        if j < |before| {
          assert before[j] in before && Rank(before[i]) == Rank(before[j]) == 4;
          FoundInFront(news, before[i], before[j]);
        } else {
          FoundLast(news, before[i]);
        }
      }
    }
  }

  lemma HasStep(news: News, c: string)
    requires news != []
    ensures Has(news, c) <==> c == news[|news| - 1].category || Has(news[..|news| - 1], c)
  {
    var front := news[..|news| - 1];
    if i :| 0 <= i < |front| && front[i].category == c { assert news[i].category == c; }
    if i :| 0 <= i < |news| && news[i].category == c { assert i < |front| ==> front[i].category == c; }
  }

  lemma FoundLast(news: News, a: string)
    requires news != [] && Has(news[..|news| - 1], a) && !Has(news[..|news| - 1], news[|news| - 1].category)
    ensures FoundBefore(news, a, news[|news| - 1].category)
  {
    var front := news[..|news| - 1];
    var i :| 0 <= i < |front| && front[i].category == a;
    assert news[i].category == a;
    forall j | 0 <= j <= i ensures news[j].category != news[|news| - 1].category { assert front[j] == news[j]; }
  }

  lemma OrderIsOrdered(news: News)
    ensures CategoriesInOrder(news, CategoryOrder(news))
  {
    ExtrasAre(news);
    StandardIs("");
    var (extras, order) := (Extras(news), CategoryOrder(news));
    hide Rank, FoundBefore, Has, Extras;
    assert order[0] == "removed" && order[1] == "changed" && order[2] == "fixed" && order[3] == "added";
    assert forall i :: 4 <= i < |order| ==> order[i] == extras[i - 4] && extras[i - 4] in extras;
  }

  function CategoriesOf(gs: seq<Group>): seq<string> {
    seq(|gs|, i requires 0 <= i < |gs| => gs[i].category)
  }

  lemma {:induction false} GroupsInOrder(news: News, order: seq<string>)
    requires CategoriesInOrder(news, order)
    ensures CategoriesInOrder(news, CategoriesOf(SectionGroups(news, order)))
    ensures forall c :: c in CategoriesOf(SectionGroups(news, order)) <==> c in order && EntriesOf(news, c) != []
  {
    hide Rank, FoundBefore, EntriesOf, Sorted;
    if order != [] {
      var (front, last) := (order[..|order| - 1], order[|order| - 1]);
      GroupsInOrder(news, front);
      assert order == front + [last];
      var cs := CategoriesOf(SectionGroups(news, front));
      if EntriesOf(news, last) != [] {
        assert CategoriesOf(SectionGroups(news, order)) == cs + [last];
        forall i | 0 <= i < |cs|
          ensures Rank(cs[i]) < Rank(last) || (Rank(cs[i]) == Rank(last) == 4 && FoundBefore(news, cs[i], last))
        {
          assert cs[i] in cs;
          var k :| 0 <= k < |front| && front[k] == cs[i];
          assert order[k] == cs[i] && order[|front|] == last;
        }
      }
    }
  }

  /** A section has exactly the categories that have entries, once each and in
      order. */
  lemma SectionIsOrdered(news: News)
    ensures var cs := CategoriesOf(SectionGroups(news, CategoryOrder(news)));
            CategoriesInOrder(news, cs) && forall c :: c in cs <==> EntriesOf(news, c) != []
  {
    OrderIsOrdered(news);
    GroupsInOrder(news, CategoryOrder(news));
    forall c ensures c in CategoryOrder(news) || EntriesOf(news, c) == [] { OrderCovers(news, c); }
    hide *;
  }

  // --------------------------------------------------------------------- the text

  /** A heading's first letter is large and the others are small. */
  lemma CapitalizedIs(s: string)
    ensures |Capitalized(s)| == |s| && Lower(Capitalized(s)) == Lower(s)
    ensures s != "" ==> !('a' <= Capitalized(s)[0] <= 'z') && Capitalized(s)[1..] == Lower(s)[1..]
  {
    if s != "" {
      assert s == [s[0]] + s[1..];
      assert forall i :: 0 <= i < |s| ==> LowerChar(LowerChar(s[i])) == LowerChar(s[i]);
      assert forall i :: 0 < i < |s| ==> s[1..][i - 1] == s[i];
    }
  }

  /** One line to each entry, in order. */
  lemma {:induction false} EntriesTextIs(es: seq<Entry>, e: Entry, more: seq<Entry>)
    ensures EntriesText([]) == "" && EntriesText([e]) == "\n" + e
    ensures EntriesText(es + more) == EntriesText(es) + EntriesText(more)
  {
    assert [e][1..] == [];
    if es == [] {
      assert es + more == more;
    } else {
      assert (es + more)[1..] == es[1..] + more;
      EntriesTextIs(es[1..], e, more);
    }
  }

  /** A category's anchor, heading and entries, each on lines of its own. */
  lemma GroupTextIs(v: Version, g: Group)
    ensures GroupText(g, CategoryStart(v))
            == "\n{#v" + FromNat(v.major) + "-" + FromNat(v.minor) + "-" + FromNat(v.patch) + "-" + g.category + "}"
               + "\n### " + Capitalized(g.category) + EntriesText(g.entries) + "\n"
  {
    hide EntriesText, Capitalized;
  }

  /** The page of a version's release. */
  function TagPage(text: string): string {
    "https://" + "github.com/" + "bazel-contrib/" + "rules_python/" + "releases/tag/" + text
  }

  /** What stands between a new section's anchor and its categories. */
  lemma TitleIs(v: Version, date: string)
    ensures var text := FromNat(v.major) + "." + FromNat(v.minor) + "." + FromNat(v.patch);
            Title(v, date) == "\n" + ("## [" + text + "] - " + date) + "\n\n" + ("[" + text + "]: " + TagPage(text))
                + "\n"
  {
    var text := FromNat(v.major) + "." + FromNat(v.minor) + "." + FromNat(v.patch);
    assert Text3(v, '.') == text;
    hide Text3, FromNat;
    LinkIs(text);
  }

  lemma LinkIs(text: string)
    ensures "[" + text + LINK + text == "[" + text + "]: " + TagPage(text)
  {
    assert "]: " + "https://" == "]: https://";
  }

  lemma AnchorIs(v: Version)
    ensures VersionAnchor(v) == "{#v" + FromNat(v.major) + "-" + FromNat(v.minor) + "-" + FromNat(v.patch) + "}"
  {
    hide FromNat;
  }

  /** A version that is not there yet gets its anchor, title and categories, or a
      note that nothing has changed, in front of the insertion point. */
  lemma CreatedTextIs(text: string, v: Version, date: string, news: News)
    requires !HasSection(text, v) && InsertionPoint(text, v).Some?
    ensures var k := InsertionPoint(text, v).value;
            var gs := SectionGroups(news, CategoryOrder(news));
            WithNews(text, v, date, news)
            == Some(text[..k] + VersionAnchor(v)
                    + (Title(v, date) + if gs == [] then "\nNo notable changes.\n"
                        else GroupsText(gs, CategoryStart(v)))
                    + "\n\n" + text[k..])
    ensures VersionAnchor(v) == "{#v" + FromNat(v.major) + "-" + FromNat(v.minor) + "-" + FromNat(v.patch) + "}"
  {
    AnchorIs(v);
    hide VersionAnchor, CategoryStart, SectionGroups, CategoryOrder, GroupsText, Title, HasSection, InsertionPoint;
  }

  /** The part of a section above its first category. */
  ghost predicate IsHead(content: string, anchor: string, head: string) {
    && head <= content && (head == content || CategoryAt(content[|head|..], anchor).Some?)
    && forall i :: 0 <= i < |head| ==> CategoryAt(content[i..], anchor).None?
  }

  lemma {:induction false} HeadIs(content: string, anchor: string)
    ensures IsHead(content, anchor, content[..NextCategory(content, anchor)])
  {
    hide CategoryAt;
    assert content[0..] == content;
    if content != "" && CategoryAt(content, anchor).None? {
      var rest := content[1..];
      HeadIs(rest, anchor);
      var n := NextCategory(rest, anchor);
      assert rest[n..] == content[n + 1..];
      forall i | 0 <= i < n + 1 ensures CategoryAt(content[i..], anchor).None? {
        if i > 0 { assert content[i..] == rest[i - 1..]; }
      }
    }
  }

  lemma OneHead(content: string, anchor: string, a: string, b: string)
    requires IsHead(content, anchor, a) && IsHead(content, anchor, b)
    ensures a == b
  {
    hide CategoryAt;
    assert a == content[..|a|] && b == content[..|b|];
  }

  // ------------------------------------------------------- a merge keeps the title

  lemma {:induction false} StartStays(a: string, b: string)
    requires a != "" && !IsSpace(a[|a| - 1])
    ensures a <= RStrip(a + b)
    decreases |b|
  {
    if b == "" {
      assert a + b == a;
    } else {
      var s := a + b;
      assert s[..|s| - 1] == a + b[..|b| - 1];
      if IsSpace(s[|s| - 1]) { StartStays(a, b[..|b| - 1]); }
    }
  }

  lemma {:induction false} LStripBefore(a: string, b: string)
    requires LStrip(a) != ""
    ensures LStrip(a + b) == LStrip(a) + b
  {
    if IsSpace(a[0]) {
      assert (a + b)[1..] == a[1..] + b;
      LStripBefore(a[1..], b);
    }
  }

  lemma {:induction false} RStripOfLStrip(a: string)
    ensures LStrip(RStrip(a)) == RStrip(LStrip(a))
  {
    if a != "" && IsSpace(a[|a| - 1]) {
      var front := a[..|a| - 1];
      RStripOfLStrip(front);
      if LStrip(front) != "" {
        assert a == front + [a[|a| - 1]];
        LStripBefore(front, [a[|a| - 1]]);
        var l := LStrip(front) + [a[|a| - 1]];
        assert l[..|l| - 1] == LStrip(front);
      } else {
        BlankAll(front, a[|a| - 1]);
      }
    } else {
      LStripShape(a);
    }
  }

  lemma {:induction false} BlankAll(a: string, c: char)
    requires LStrip(a) == "" && IsSpace(c)
    ensures LStrip(a + [c]) == "" && RStrip("") == ""
  {
    if a == "" {
      assert a + [c] == [c] && [c][1..] == "";
    } else {
      assert (a + [c])[1..] == a[1..] + [c];
      BlankAll(a[1..], c);
    }
  }

  /** What a text strips to still comes first when more is put behind it. */
  lemma StripStays(head: string, more: string)
    ensures Strip(head) <= Strip(RStrip(head) + more)
  {
    RStripOfLStrip(head);
    var a := LStrip(RStrip(head));
    if a != "" {
      LStripBefore(RStrip(head), more);
      RStripShape(LStrip(head));
      StartStays(a, more);
    }
  }

  lemma UpdatedContentIs(text: string, v: Version, news: News)
    requires IsReady(text, v) && GoodGroups(news, Harmless(v)) && IsNews(news) && news != []
    ensures var (s, r) := (SectionOf(text, v), Updated(text, v, news));
            && r.Some? && HasSection(r.value, v)
            && SectionOf(r.value, v).content
               == "\n" + MergedSection(s.content, news, CategoryStart(v)) + (if s.after == "" then "\n" else "")
  {
    var s := SectionOf(text, v);
    ReadySplits(text, v);
    hide *;
    var block := MergedSection(s.content, news, CategoryStart(v));
    var content := "\n" + block + (if s.after == "" then "\n" else "");
    MergedCalm(s.content, news, v);
    ChangelogMerge.UpdatedIs(text, v, news);
    ReplacedText(s.before, VersionAnchor(v), block, s.after);
    ReplacedEnd(block, s.after);
    AnchorPlaced(s.before, text, content + Pushed(s.after), v);
    SectionIs(s.before, content, Pushed(s.after), v);
  }

  /** Merging news into a section that is ready keeps what stands above its
      categories, but for blanks around it. */
  lemma MergeKeepsHead(text: string, v: Version, news: News, head: string)
    requires IsReady(text, v) && GoodGroups(news, Harmless(v)) && IsNews(news) && news != []
    requires HasSection(text, v) && IsHead(SectionOf(text, v).content, CategoryStart(v), head)
    ensures var r := Updated(text, v, news);
            && r.Some? && HasSection(r.value, v) && "\n" + Strip(head) <= SectionOf(r.value, v).content
  {
    var (content, anchor) := (SectionOf(text, v).content, CategoryStart(v));
    HeadIs(content, anchor);
    UpdatedContentIs(text, v, news);
    BlockStarts(content, news, anchor);
    hide *;
    OneHead(content, anchor, head, content[..NextCategory(content, anchor)]);
  }

  lemma BlockStarts(content: string, news: News, anchor: string)
    ensures Strip(content[..NextCategory(content, anchor)]) <= MergedSection(content, news, anchor)
  {
    var head := content[..NextCategory(content, anchor)];
    hide Strip, RStrip, Categories, Parsed, Merged, NextCategory;
    var cats := Strip(Categories(Merged(Parsed(content, anchor), news), anchor));
    StripStays(head, "\n\n" + cats + "\n");
    assert RStrip(head) + ("\n\n" + cats + "\n") == RStrip(head) + "\n\n" + cats + "\n";
  }
}
