/** What a rendered changelog section is read back as. */
module ChangelogReading {
  import opened Text
  import opened Changelog

  // -------------------------------------------------- parsing what is rendered

  /** One bullet at the start; no blank line, heading or further bullet; no line
      breaks but newlines, and no blank at the end. */
  predicate IsWellFormed(e: Entry) {
    && e != "" && !IsSpace(e[|e| - 1]) && (forall c :: c in e && IsBreak(c) ==> c == '\n')
    && Lines(e) != [] && IsBullet(Lines(e)[0])
    && (forall i :: 0 <= i < |Lines(e)| ==> !IsSkipped(Lines(e)[i]))
    && forall i :: 1 <= i < |Lines(e)| ==> !IsBullet(Lines(e)[i])
  }

  ghost predicate AllWellFormed(es: seq<Entry>) {
    forall e :: e in es ==> IsWellFormed(e)
  }

  function Flat(es: seq<Entry>): seq<string> {
    if es == [] then [] else Lines(es[0]) + Flat(es[1..])
  }

  lemma {:induction false} EntriesContinue(lines: seq<string>, rest: seq<string>, current: seq<string>)
    requires current != [] && forall i :: 0 <= i < |lines| ==> !IsSkipped(lines[i]) && !IsBullet(lines[i])
    ensures Entries(lines + rest, current) == Entries(rest, current + lines)
  {
    hide IsSkipped, IsBullet, Joined;
    if lines == [] {
      assert lines + rest == rest && current + lines == current;
    } else {
      assert (lines + rest)[1..] == lines[1..] + rest && (lines + rest)[0] == lines[0];
      EntriesContinue(lines[1..], rest, current + [lines[0]]);
      assert current + [lines[0]] + lines[1..] == current + lines;
    }
  }

  /** The lines of a well-formed entry. */
  ghost predicate AreBullet(lines: seq<string>) {
    && lines != [] && IsBullet(lines[0])
    && (forall i :: 0 <= i < |lines| ==> !IsSkipped(lines[i]))
    && forall i :: 1 <= i < |lines| ==> !IsBullet(lines[i])
  }

  lemma WellFormedLines(e: Entry)
    requires IsWellFormed(e)
    ensures AreBullet(Lines(e)) && Joined(Lines(e)) == e
  {
    hide IsSkipped, IsBullet, Joined, Lines;
    LinesJoined(e);
  }

  lemma BulletRead(lines: seq<string>, rest: seq<string>, current: seq<string>)
    requires AreBullet(lines)
    ensures Entries(lines + rest, current) == (if current == [] then [] else [Joined(current)]) + Entries(rest, lines)
  {
    hide IsSkipped, IsBullet, Joined;
    assert (lines + rest)[0] == lines[0] && (lines + rest)[1..] == lines[1..] + rest;
    forall i | 0 <= i < |lines[1..]| ensures !IsSkipped(lines[1..][i]) && !IsBullet(lines[1..][i]) {
      assert lines[1..][i] == lines[i + 1];
    }
    EntriesContinue(lines[1..], rest, [lines[0]]);
    assert [lines[0]] + lines[1..] == lines;
  }

  lemma EntryRead(e: Entry, rest: seq<string>, current: seq<string>)
    requires IsWellFormed(e)
    ensures Lines(e) != [] && Joined(Lines(e)) == e
    ensures Entries(Lines(e) + rest, current)
            == (if current == [] then [] else [Joined(current)]) + Entries(rest, Lines(e))
  {
    WellFormedLines(e);
    hide IsSkipped, IsBullet, Joined, Lines, IsWellFormed, Entries;
    BulletRead(Lines(e), rest, current);
  }

  lemma {:induction false} EntriesRead(es: seq<Entry>, current: seq<string>)
    requires AllWellFormed(es)
    ensures Entries(Flat(es), current) == (if current == [] then [] else [Joined(current)]) + es
  {
    hide IsSkipped, IsBullet, IsWellFormed, Joined, Lines;
    if es != [] {
      assert AllWellFormed(es[1..]);
      EntryRead(es[0], Flat(es[1..]), current);
      EntriesRead(es[1..], Lines(es[0]));
      assert es == [es[0]] + es[1..];
    }
  }

  lemma {:induction false} FlatLines(l: string, es: seq<Entry>)
    ensures Lines(l + EntriesText(es)) == Lines(l) + Flat(es)
    decreases |es|
  {
    hide Lines;
    if es == [] {
      assert l + "" == l;
    } else {
      assert l + EntriesText(es) == l + "\n" + (es[0] + EntriesText(es[1..]));
      LinesConcat(l, es[0] + EntriesText(es[1..]));
      FlatLines(es[0], es[1..]);
      assert Lines(l) + (Lines(es[0]) + Flat(es[1..])) == Lines(l) + Flat(es);
    }
  }

  predicate AllSpace(s: string) {
    forall i :: 0 <= i < |s| ==> IsSpace(s[i])
  }

  lemma {:induction false} LStripTail(s: string, w: char)
    requires IsSpace(w)
    ensures LStrip(s + [w]) == if LStrip(s) == "" then "" else LStrip(s) + [w]
  {
    if s == "" {
      assert s + [w] == [w] && [w][1..] == "";
    } else {
      assert (s + [w])[1..] == s[1..] + [w];
      if IsSpace(s[0]) { LStripTail(s[1..], w); }
    }
  }

  lemma StripLast(s: string, w: char)
    requires IsSpace(w)
    ensures Strip(s + [w]) == Strip(s) && RStrip(s + [w]) == RStrip(s)
  {
    LStripTail(s, w);
    var t := LStrip(s);
    assert (t + [w])[..|t|] == t && (s + [w])[..|s|] == s;
  }

  lemma {:induction false} StripTail(s: string, w: string)
    requires AllSpace(w)
    ensures Strip(s + w) == Strip(s)
  {
    hide Strip;
    if w == "" {
      assert s + w == s;
    } else {
      var front := w[..|w| - 1];
      StripTail(s, front);
      StripLast(s + front, w[|w| - 1]);
      assert s + w == s + front + [w[|w| - 1]];
    }
  }

  lemma NameChars(category: string)
    requires IsCategory(category)
    ensures |Capitalized(category)| == |category|
    ensures forall i :: 0 <= i < |category| ==> 'A' <= Capitalized(category)[i] <= 'z'
  {
    var name := Capitalized(category);
    forall i | 0 <= i < |category| ensures 'A' <= name[i] <= 'z' {
      assert IsLower(category[i]);
      if i > 0 { assert name[i] == LowerChar(category[1..][i - 1]); }
    }
  }

  lemma HeadingIsSkipped(category: string)
    requires IsCategory(category)
    ensures var line := "### " + Capitalized(category);
            IsSkipped(line) && Lines(line) == [line] && !IsSpace(line[|line| - 1])
  {
    NameChars(category);
    hide Capitalized, IsCategory;
    var name := Capitalized(category);
    var line := "### " + name;
    assert line[|line| - 1] == name[|name| - 1] && line[0] == '#';
    StripTrims(line);
    hide Strip;
    assert Strip(line) == line && line[..4] == "### ";
    forall i | 0 <= i < |line| ensures !IsBreak(line[i]) {
      if i >= 4 { assert line[i] == name[i - 4]; } else { assert line[i] == "### "[i]; }
    }
    assert LineEnd(line) == |line|;
  }

  lemma WellFormedEnd(e: Entry)
    requires IsWellFormed(e)
    ensures e != "" && !IsSpace(e[|e| - 1])
  {
  }

  lemma {:induction false} EntriesEnd(l: string, es: seq<Entry>)
    requires AllWellFormed(es) && l != "" && !IsSpace(l[|l| - 1])
    ensures var s := l + EntriesText(es); s != "" && !IsSpace(s[|s| - 1])
    decreases |es|
  {
    hide IsWellFormed, IsSpace;
    if es != [] {
      assert IsWellFormed(es[0]) && AllWellFormed(es[1..]);
      EntriesEnd(es[0], es[1..]) by { WellFormedEnd(es[0]); }
      assert l + EntriesText(es) == l + "\n" + (es[0] + EntriesText(es[1..]));
    } else {
      assert l + "" == l;
    }
  }

  ghost predicate GoodShape(g: Group) {
    IsCategory(g.category) && AllWellFormed(g.entries)
  }

  /** A trimmed text is what remains of it. */
  lemma StripBetween(s: string, w: string)
    requires AllSpace(w) && s != "" && Trimmed(s)
    ensures Strip("\n" + s + w) == s
  {
    StripTail("\n" + s, w);
    StripTrims(s);
    assert IsSpace('\n') && ("\n" + s)[1..] == s;
  }

  lemma SkippedFirst(line: string, lines: seq<string>)
    requires IsSkipped(line)
    ensures Entries([line] + lines, []) == Entries(lines, [])
  {
    assert ([line] + lines)[1..] == lines;
  }

  /** The text of a category is read back as its entries. */
  lemma BodyRead(g: Group, w: string)
    requires GoodShape(g) && AllSpace(w)
    ensures EntriesIn(BodyText(g) + w) == g.entries
    ensures BodyText(g)[0] == '\n' && !IsSpace(BodyText(g)[|BodyText(g)| - 1])
  {
    var heading := "### " + Capitalized(g.category);
    var s := heading + EntriesText(g.entries);
    HeadingIsSkipped(g.category);
    EntriesEnd(heading, g.entries);
    FlatLines(heading, g.entries);
    EntriesRead(g.entries, []);
    SkippedFirst(heading, Flat(g.entries));
    BodyIs(g);
    Spaces();
    hide *;
    assert s[0] == '#';
    HeadedText(s, w);
    assert BodyText(g) + w == "\n" + s + w;
  }

  lemma BodyIs(g: Group)
    ensures BodyText(g) == "\n" + ("### " + Capitalized(g.category) + EntriesText(g.entries))
  {
    hide EntriesText, Capitalized;
  }

  lemma HeadedText(s: string, w: string)
    requires s != "" && !IsSpace(s[0]) && !IsSpace(s[|s| - 1]) && AllSpace(w)
    ensures EntriesIn("\n" + s + w) == Entries(Lines(s), [])
  {
    StripBetween(s, w);
  }

  lemma Spaces()
    ensures IsSpace('\n') && !IsSpace('#') && !IsSpace('{') && !IsSpace('}')
  {
  }

  // ------------------------------------------------------------------ anchors

  /** What the category anchors of a version start with. */
  predicate IsAnchor(anchor: string) {
    && StartsWith(anchor, "{#") && (forall i :: 0 <= i < |anchor| ==> !IsSpace(anchor[i]))
    && forall i :: 1 <= i < |anchor| ==> anchor[i] != '{'
  }

  /** No category anchor anywhere, whatever it is in the middle of. */
  ghost predicate NoCategory(s: string, anchor: string) {
    forall i :: 0 <= i < |s| ==> CategoryAt(s[i..], anchor).None?
  }

  lemma NotAnchored(s: string, anchor: string)
    requires IsAnchor(anchor) && (s == "" || s[0] != '{')
    ensures CategoryAt(s, anchor).None?
  {
    if StartsWith(s, anchor) { AnchorStart(s, anchor); }
  }

  lemma AnchorStart(s: string, anchor: string)
    requires IsAnchor(anchor) && StartsWith(s, anchor)
    ensures |s| >= 2 && s[0] == '{'
  {
    assert s[0] == anchor[0] == "{#"[0];
  }

  lemma LettersIs(s: string, n: nat)
    requires n <= |s| && (forall i :: 0 <= i < n ==> IsLower(s[i])) && (n < |s| ==> !IsLower(s[n]))
    ensures Letters(s) == n
  {
    var _ := Letters(s);
  }

  lemma CategoryRead(category: string, rest: string, anchor: string)
    requires IsCategory(category)
    ensures CategoryAt(anchor + category + "}" + rest, anchor) == Some(category)
  {
    var s := anchor + category + "}" + rest;
    assert s[|anchor|..] == category + ("}" + rest);
    LettersIs(s[|anchor|..], |category|);
    assert s[|anchor|..|anchor| + |category|] == category;
  }

  /** An anchor has no blank in it. */
  lemma CategoryAtBreak(s: string, t: string, anchor: string)
    requires IsAnchor(anchor) && (t == "" || IsSpace(t[0]))
    ensures CategoryAt(s + t, anchor) == CategoryAt(s, anchor)
  {
    if t == "" {
      assert s + t == s;
    } else {
      if |anchor| > |s| { assert (s + t)[|s|] == t[0] && !IsSpace(anchor[|s|]); }
      assert StartsWith(s + t, anchor) <==> StartsWith(s, anchor);
      if StartsWith(s, anchor) {
        var a := s[|anchor|..];
        assert (s + t)[|anchor|..] == a + t;
        var n := Letters(a);
        LettersIs(a + t, n);
        assert |anchor| + n < |s| ==> (s + t)[|anchor|..|anchor| + n] == s[|anchor|..|anchor| + n];
        assert |anchor| + n == |s| ==> (s + t)[|s|] == t[0];
      }
    }
  }

  lemma CategoryAtGrows(s: string, t: string, anchor: string)
    requires CategoryAt(s, anchor).Some?
    ensures CategoryAt(s + t, anchor) == CategoryAt(s, anchor)
  {
    var a := s[|anchor|..];
    assert (s + t)[|anchor|..] == a + t && anchor <= s + t;
    var n := Letters(a);
    LettersIs(a + t, n);
    assert (s + t)[|anchor|..|anchor| + n] == s[|anchor|..|anchor| + n];
  }

  lemma NoCategoryConcat(a: string, b: string, anchor: string)
    requires IsAnchor(anchor) && NoCategory(a, anchor) && NoCategory(b, anchor) && (b == "" || IsSpace(b[0]))
    ensures NoCategory(a + b, anchor)
  {
    hide CategoryAt, IsAnchor, IsSpace;
    forall i | 0 <= i < |a + b| ensures CategoryAt((a + b)[i..], anchor).None? {
      if i < |a| {
        assert (a + b)[i..] == a[i..] + b;
        CategoryAtBreak(a[i..], b, anchor);
      } else {
        assert (a + b)[i..] == b[i - |a|..];
      }
    }
  }

  lemma NoBrace(s: string, anchor: string)
    requires IsAnchor(anchor) && '{' !in s
    ensures NoCategory(s, anchor)
  {
    hide CategoryAt, IsAnchor;
    forall i | 0 <= i < |s| ensures CategoryAt(s[i..], anchor).None? { NotAnchored(s[i..], anchor); }
  }

  lemma {:induction false} Unanchored(a: string, rest: string, anchor: string)
    requires IsAnchor(anchor) && NoCategory(a, anchor) && (rest == "" || IsSpace(rest[0]))
    ensures NextCategory(a + rest, anchor) == |a| + NextCategory(rest, anchor)
    ensures Parsed(a + rest, anchor) == Parsed(rest, anchor)
  {
    hide CategoryAt, EntriesIn, IsAnchor, IsSpace;
    if a == "" {
      assert a + rest == rest;
    } else {
      assert (a + rest)[1..] == a[1..] + rest && a[0..] == a;
      CategoryAtBreak(a, rest, anchor);
      assert NoCategory(a[1..], anchor) by { assert forall i :: 0 <= i < |a[1..]| ==> a[1..][i..] == a[i + 1..]; }
      Unanchored(a[1..], rest, anchor);
    }
  }

  /** No entry has an anchor of the version inside. */
  ghost predicate NoneInside(es: seq<Entry>, anchor: string) {
    forall e :: e in es ==> NoCategory(e, anchor)
  }

  lemma {:induction false} EntriesUnanchored(es: seq<Entry>, anchor: string)
    requires IsAnchor(anchor) && NoneInside(es, anchor)
    ensures NoCategory(EntriesText(es), anchor)
  {
    hide NoCategory, IsAnchor;
    if es == [] {
      NoBrace("", anchor);
    } else {
      assert es[0] in es && NoneInside(es[1..], anchor);
      EntriesUnanchored(es[1..], anchor);
      NoBrace("\n", anchor);
      hide CategoryAt;
      assert IsSpace('\n');
      NoCategoryLead(es[0], anchor);
      NoCategoryConcat("\n" + es[0], EntriesText(es[1..]), anchor);
    }
  }

  lemma NoCategoryLead(s: string, anchor: string)
    requires IsAnchor(anchor) && NoCategory(s, anchor)
    ensures NoCategory("\n" + s, anchor)
  {
    NotAnchored("\n" + s, anchor);
    hide CategoryAt, IsAnchor;
    forall i | 0 <= i < |"\n" + s| ensures CategoryAt(("\n" + s)[i..], anchor).None? {
      if i > 0 { assert ("\n" + s)[i..] == s[i - 1..]; } else { assert ("\n" + s)[0..] == "\n" + s; }
    }
  }

  lemma BodyUnanchored(g: Group, anchor: string)
    requires IsAnchor(anchor) && IsCategory(g.category) && NoneInside(g.entries, anchor)
    ensures NoCategory(BodyText(g), anchor)
  {
    var heading := "\n### " + Capitalized(g.category);
    assert '{' !in heading by {
      forall i | 0 <= i < |heading| ensures heading[i] != '{' {
        if i >= 5 { assert heading[i] == Capitalized(g.category)[i - 5]; }
      }
    }
    NoBrace(heading, anchor);
    EntriesUnanchored(g.entries, anchor);
    hide IsAnchor, NoCategory, Capitalized;
    assert IsSpace('\n');
    NoCategoryConcat(heading, EntriesText(g.entries), anchor);
  }

  /** A category and what follows its anchor. */
  lemma FirstGroup(c: string, rest: string, anchor: string)
    requires IsAnchor(anchor) && IsCategory(c)
    ensures var n := NextCategory(rest, anchor);
            Parsed(AnchorLine(c, anchor) + rest, anchor) == [Group(c, EntriesIn(rest[..n]))] + Parsed(rest[n..], anchor)
    ensures NextCategory(AnchorLine(c, anchor) + rest, anchor) == 1
  {
    var z := anchor + c + "}" + rest;
    CategoryRead(c, rest, anchor);
    NextAfterBlank(z, anchor);
    AnchorLineText(c, rest, anchor);
    hide *;
    assert z[|anchor| + |c| + 1..] == rest;
    FirstAnchor(c, z, rest, anchor);
  }

  lemma AnchorLineText(c: string, rest: string, anchor: string)
    ensures AnchorLine(c, anchor) + rest == "\n" + (anchor + c + "}" + rest)
  {
  }

  lemma NoneParsed(s: string, anchor: string)
    requires s != "" && CategoryAt(s, anchor).None?
    ensures Parsed(s, anchor) == Parsed(s[1..], anchor)
  {
  }

  lemma FirstAnchor(c: string, z: string, rest: string, anchor: string)
    requires CategoryAt(z, anchor) == Some(c) && z[|anchor| + |c| + 1..] == rest
    ensures var n := NextCategory(rest, anchor);
            Parsed(z, anchor) == [Group(c, EntriesIn(rest[..n]))] + Parsed(rest[n..], anchor)
    ensures NextCategory(z, anchor) == 0
  {
    hide CategoryAt, EntriesIn;
  }

  lemma NextAfterBlank(s: string, anchor: string)
    requires IsAnchor(anchor)
    ensures NextCategory("\n" + s, anchor) == 1 + NextCategory(s, anchor)
            && Parsed("\n" + s, anchor) == Parsed(s, anchor)
  {
    NotAnchored("\n" + s, anchor);
    assert ("\n" + s)[1..] == s;
  }

  ghost predicate GoodGroup(g: Group, good: iset<Entry>) {
    IsCategory(g.category) && forall e :: e in g.entries ==> e in good
  }

  /** The entries that are read back under the anchors of a version. */
  ghost function Readable(anchor: string): iset<Entry> {
    iset e: Entry | IsWellFormed(e) && NoCategory(e, anchor)
  }

  lemma GoodParts(g: Group, anchor: string)
    requires GoodGroup(g, Readable(anchor))
    ensures GoodShape(g) && IsCategory(g.category) && AllWellFormed(g.entries) && NoneInside(g.entries, anchor)
  {
  }

  /** A rendered category is read back; `q` follows it. */
  lemma GroupRead(g: Group, q: string, anchor: string)
    requires IsAnchor(anchor) && GoodGroup(g, Readable(anchor))
    requires (q == "" || IsSpace(q[0])) && AllSpace(q[..NextCategory(q, anchor)])
    ensures Parsed(AnchorLine(g.category, anchor) + BodyText(g) + q, anchor) == [g] + Parsed(q, anchor)
    ensures NextCategory(AnchorLine(g.category, anchor) + BodyText(g) + q, anchor) == 1
  {
    var (top, body, m) := (AnchorLine(g.category, anchor), BodyText(g), NextCategory(q, anchor));
    hide *;
    GoodParts(g, anchor);
    BodyUnanchored(g, anchor);
    BodyRead(g, q[..m]);
    Unanchored(body, q, anchor);
    FirstGroup(g.category, body + q, anchor);
    assert top + body + q == top + (body + q);
    assert (body + q)[..|body| + m] == body + q[..m] && (body + q)[|body| + m..] == q[m..];
    NextIsAnchor(q, anchor);
  }

  ghost predicate GoodGroups(gs: seq<Group>, good: iset<Entry>) {
    forall g :: g in gs ==> GoodGroup(g, good)
  }

  /** What separates a category from the next is blank. */
  lemma Separator(rest: string, anchor: string)
    requires IsAnchor(anchor) && (rest != "" ==> rest[0] == '\n' && NextCategory(rest, anchor) == 1)
    ensures var q := "\n" + rest;
            AllSpace(q[..NextCategory(q, anchor)]) && IsSpace(q[0]) && Parsed(q, anchor) == Parsed(rest, anchor)
  {
    NextAfterBlank(rest, anchor);
    var q := "\n" + rest;
    assert q[0] == '\n' && (rest != "" ==> q[1] == '\n');
    hide CategoryAt, Parsed, IsAnchor;
    assert rest == "" ==> NextCategory(rest, anchor) == 0;
    hide NextCategory;
  }

  lemma {:induction false} GroupsRead(gs: seq<Group>, anchor: string)
    requires IsAnchor(anchor) && GoodGroups(gs, Readable(anchor))
    ensures Parsed(GroupsText(gs, anchor), anchor) == gs
    ensures gs != [] ==>
              GroupsText(gs, anchor) != "" && GroupsText(gs, anchor)[0] == '\n'
                  && NextCategory(GroupsText(gs, anchor), anchor) == 1
  {
    hide IsAnchor, GoodGroup, Parsed, NextCategory, CategoryAt, BodyText, AnchorLine, AllSpace, IsSpace;
    if gs == [] {
      assert Parsed("", anchor) == [] by { NothingParsed(anchor); }
    } else {
      var (g, rest) := (gs[0], GroupsText(gs[1..], anchor));
      assert GoodGroup(g, Readable(anchor)) && GoodGroups(gs[1..], Readable(anchor));
      GroupsRead(gs[1..], anchor);
      assert gs[1..] == [] ==> rest == "";
      Separator(rest, anchor);
      GroupRead(g, "\n" + rest, anchor);
      FirstOfGroups(gs, anchor);
      assert gs == [g] + gs[1..];
    }
  }

  lemma FirstOfGroups(gs: seq<Group>, anchor: string)
    requires gs != []
    ensures GroupsText(gs, anchor)
            == AnchorLine(gs[0].category, anchor) + BodyText(gs[0]) + ("\n" + GroupsText(gs[1..], anchor))
    ensures GroupsText(gs, anchor)[0] == '\n'
  {
    hide BodyText;
    assert AnchorLine(gs[0].category, anchor)[0] == '\n';
  }

  // ------------------------------------------------------------- blanks around

  lemma {:induction false} NextLast(s: string, w: char, anchor: string)
    requires IsAnchor(anchor) && IsSpace(w)
    ensures NextCategory(s + [w], anchor) == if NextCategory(s, anchor) == |s| then |s| + 1 else NextCategory(s, anchor)
  {
    CategoryAtBreak(s, [w], anchor);
    NotAnchored([w], anchor);
    hide CategoryAt, IsAnchor;
    if s == "" {
      assert s + [w] == [w] && [w][1..] == "";
    } else {
      assert (s + [w])[1..] == s[1..] + [w];
      NextLast(s[1..], w, anchor);
    }
  }

  lemma SegmentLast(rest: string, w: char, anchor: string)
    requires IsAnchor(anchor) && IsSpace(w)
    requires var tail := rest[NextCategory(rest, anchor)..]; tail != "" ==>
               Parsed(tail + [w], anchor) == Parsed(tail, anchor)
    ensures var (n, more) := (NextCategory(rest, anchor), rest + [w]);
            var m := NextCategory(more, anchor);
            EntriesIn(more[..m]) == EntriesIn(rest[..n]) && Parsed(more[m..], anchor) == Parsed(rest[n..], anchor)
  {
    hide *;
    NextLast(rest, w, anchor);
    SameEntries(rest, w);
    var (n, more) := (NextCategory(rest, anchor), rest + [w]);
    if n == |rest| {
      assert more[..n + 1] == more && rest[..n] == rest && more[n + 1..] == "" && rest[n..] == "";
    } else {
      assert more[..n] == rest[..n] && more[n..] == rest[n..] + [w];
    }
  }

  lemma BlankParsed(w: char, anchor: string)
    requires IsAnchor(anchor) && IsSpace(w)
    ensures Parsed([w], anchor) == Parsed("", anchor) == []
  {
    NotAnchored([w], anchor);
    assert [w][1..] == "";
  }

  lemma {:induction false} ParsedLast(s: string, w: char, anchor: string)
    requires IsAnchor(anchor) && IsSpace(w)
    ensures Parsed(s + [w], anchor) == Parsed(s, anchor)
    decreases |s|
  {
    hide *;
    var (t, at) := (s + [w], CategoryAt(s, anchor));
    CategoryAtBreak(s, [w], anchor);
    if s == "" {
      assert t == [w];
      BlankParsed(w, anchor);
    } else if at.None? {
      assert t[1..] == s[1..] + [w];
      NoneParsed(s, anchor);
      NoneParsed(t, anchor);
      ParsedLast(s[1..], w, anchor);
    } else {
      var rest := s[|anchor| + |at.value| + 1..];
      var tail := rest[NextCategory(rest, anchor)..];
      if tail != "" { ParsedLast(tail, w, anchor); }
      LastAfterAnchor(s, rest, at.value, w, anchor);
    }
  }

  lemma LastAfterAnchor(s: string, rest: string, c: string, w: char, anchor: string)
    requires IsAnchor(anchor) && IsSpace(w) && CategoryAt(s, anchor) == Some(c) && rest == s[|anchor| + |c| + 1..]
    requires var tail := rest[NextCategory(rest, anchor)..]; tail != "" ==>
               Parsed(tail + [w], anchor) == Parsed(tail, anchor)
    ensures Parsed(s + [w], anchor) == Parsed(s, anchor)
  {
    hide *;
    CategoryAtBreak(s, [w], anchor);
    assert (s + [w])[|anchor| + |c| + 1..] == rest + [w];
    FirstAnchor(c, s, rest, anchor);
    FirstAnchor(c, s + [w], rest + [w], anchor);
    SegmentLast(rest, w, anchor);
  }

  lemma SameEntries(s: string, w: char)
    requires IsSpace(w)
    ensures EntriesIn(s + [w]) == EntriesIn(s)
  {
    StripLast(s, w);
  }

  /** Blanks around a text do not matter. */
  lemma {:induction false} ParsedRStrip(s: string, anchor: string)
    requires IsAnchor(anchor)
    ensures Parsed(RStrip(s), anchor) == Parsed(s, anchor)
  {
    hide Parsed, IsAnchor, IsSpace;
    if s != "" && IsSpace(s[|s| - 1]) {
      var front := s[..|s| - 1];
      ParsedRStrip(front, anchor);
      ParsedLast(front, s[|s| - 1], anchor);
      assert s == front + [s[|s| - 1]];
    }
  }

  lemma {:induction false} ParsedLStrip(s: string, anchor: string)
    requires IsAnchor(anchor)
    ensures Parsed(LStrip(s), anchor) == Parsed(s, anchor)
  {
    hide CategoryAt, EntriesIn, IsAnchor;
    if s != "" && IsSpace(s[0]) {
      ParsedLStrip(s[1..], anchor);
      NotAnchored(s, anchor);
    }
  }

  lemma ParsedStrip(s: string, anchor: string)
    requires IsAnchor(anchor)
    ensures Parsed(Strip(s), anchor) == Parsed(s, anchor)
  {
    ParsedLStrip(s, anchor);
    ParsedRStrip(LStrip(s), anchor);
  }

  // --------------------------------------------- what a section is read back as

  lemma {:induction false} ExtendedGood(news: News, g: Group, good: iset<Entry>)
    requires GoodGroups(news, good) && GoodGroup(g, good)
    ensures GoodGroups(Extended(news, g), good)
  {
    hide IsCategory;
    if news != [] {
      var (front, last) := (news[..|news| - 1], news[|news| - 1]);
      assert last in news && GoodGroups(front, good);
      if last.category != g.category { ExtendedGood(front, g, good); }
    }
  }

  lemma {:induction false} MergedGood(existing: News, news: News, good: iset<Entry>)
    requires GoodGroups(existing, good) && GoodGroups(news, good)
    ensures GoodGroups(Merged(existing, news), good)
  {
    hide GoodGroup;
    if news != [] {
      assert news[|news| - 1] in news;
      MergedGood(existing, news[..|news| - 1], good);
      ExtendedGood(Merged(existing, news[..|news| - 1]), news[|news| - 1], good);
    }
  }

  lemma {:induction false} SectionGood(news: News, order: seq<string>, good: iset<Entry>)
    requires GoodGroups(news, good) && forall c :: c in order ==> IsCategory(c)
    ensures GoodGroups(SectionGroups(news, order), good)
  {
    hide IsCategory, Sorted;
    if order != [] {
      var c := order[|order| - 1];
      SectionGood(news, order[..|order| - 1], good);
      assert IsCategory(c);
      GetIsSome(news, c);
      SortedIs(EntriesOf(news, c));
      if EntriesOf(news, c) != [] {
        var i :| 0 <= i < |news| && news[i].category == c && news[i].entries == EntriesOf(news, c);
        assert GoodGroup(news[i], good);
        assert GoodGroup(Group(c, Sorted(EntriesOf(news, c))), good);
      }
    }
  }

  lemma OrderIsGood(news: News, good: iset<Entry>)
    requires GoodGroups(news, good)
    ensures forall c :: c in CategoryOrder(news) ==> IsCategory(c)
  {
    OrderCovers(news, "");
    assert IsCategory("removed") && IsCategory("changed") && IsCategory("fixed") && IsCategory("added");
    hide IsCategory;
    assert STANDARD == ["removed", "changed", "fixed", "added"];
    forall c | c in Extras(news) ensures IsCategory(c) {
      var g :| g in news && g.category == c;
      assert GoodGroup(g, good);
    }
  }

  lemma CategoriesRead(news: News, anchor: string)
    requires IsAnchor(anchor) && GoodGroups(news, Readable(anchor))
    ensures Parsed(Categories(news, anchor), anchor) == SectionGroups(news, CategoryOrder(news))
    ensures GoodGroups(SectionGroups(news, CategoryOrder(news)), Readable(anchor))
  {
    hide IsAnchor, GoodGroup, CategoryOrder, Parsed, GroupsText;
    OrderIsGood(news, Readable(anchor));
    SectionGood(news, CategoryOrder(news), Readable(anchor));
    GroupsRead(SectionGroups(news, CategoryOrder(news)), anchor);
  }

  lemma CategoriesStart(news: News, anchor: string)
    ensures SectionGroups(news, CategoryOrder(news)) == [] ==> Categories(news, anchor) == ""
    ensures SectionGroups(news, CategoryOrder(news)) != [] ==>
              Categories(news, anchor) != "" && Categories(news, anchor)[0] == '\n'
  {
    var gs := SectionGroups(news, CategoryOrder(news));
    if gs != [] { FirstOfGroups(gs, anchor); }
  }

  /** A new section parses to its news, sorted by category. */
  lemma NewSectionRead(header: string, news: News, anchor: string)
    requires IsAnchor(anchor) && NoCategory(header, anchor) && GoodGroups(news, Readable(anchor))
    ensures Parsed(NewSection(header, news, anchor), anchor) == SectionGroups(news, CategoryOrder(news))
  {
    CategoriesRead(news, anchor);
    CategoriesStart(news, anchor);
    assert '{' !in NOTHING;
    NoBrace(NOTHING, anchor);
    hide IsAnchor, CategoryAt, GoodGroup, CategoryOrder, Categories, NoCategory, Parsed;
    var rest := if SectionGroups(news, CategoryOrder(news)) == [] then NOTHING else Categories(news, anchor);
    assert rest != "" && IsSpace(rest[0]);
    Unanchored(header, rest, anchor);
    Unanchored(NOTHING, "", anchor);
    assert NOTHING + "" == NOTHING;
    NothingParsed(anchor);
  }

  /** What comes before the first anchor has none, however it is cut. */
  lemma {:induction false} HeaderUnanchored(s: string, k: nat, anchor: string)
    requires k <= NextCategory(s, anchor)
    ensures NoCategory(s[..k], anchor)
  {
    hide CategoryAt;
    if k > 0 {
      HeaderUnanchored(s[1..], k - 1, anchor);
      forall i | 0 <= i < k ensures CategoryAt(s[..k][i..], anchor).None? {
        if i > 0 {
          assert s[..k][i..] == s[i..k] && s[1..][..k - 1] == s[1..k] && s[1..k][i - 1..] == s[i..k];
        } else {
          assert s[..k][0..] == s[..k] && s[..k] + s[k..] == s;
          if CategoryAt(s[..k], anchor).Some? { CategoryAtGrows(s[..k], s[k..], anchor); }
        }
      }
    }
  }

  /** Merging into a section parses to the merged news, sorted by category. */
  lemma MergedSectionRead(content: string, news: News, anchor: string)
    requires IsAnchor(anchor) && GoodGroups(news, Readable(anchor))
             && GoodGroups(Parsed(content, anchor), Readable(anchor))
    ensures var all := Merged(Parsed(content, anchor), news);
            && Parsed(MergedSection(content, news, anchor), anchor) == SectionGroups(all, CategoryOrder(all))
            && GoodGroups(SectionGroups(all, CategoryOrder(all)), Readable(anchor))
  {
    var all := Merged(Parsed(content, anchor), news);
    var (header, cats) := (content[..NextCategory(content, anchor)], Categories(all, anchor));
    MergedGood(Parsed(content, anchor), news, Readable(anchor));
    CategoriesRead(all, anchor);
    RStripShape(header);
    HeaderUnanchored(content, |RStrip(header)|, anchor);
    hide *;
    assert content[..|RStrip(header)|] == RStrip(header);
    AfterHeader(RStrip(header), Strip(cats), anchor);
    ParsedStrip(cats, anchor);
    ParsedStrip(RStrip(header) + "\n\n" + Strip(cats) + "\n", anchor);
    MergedSectionIs(content, news, anchor);
  }

  lemma AfterHeader(header: string, cats: string, anchor: string)
    requires IsAnchor(anchor) && NoCategory(header, anchor)
    ensures Parsed(header + "\n\n" + cats + "\n", anchor) == Parsed(cats, anchor)
  {
    Spaces();
    hide *;
    var body := cats + "\n";
    var rest := "\n" + ("\n" + body);
    assert header + rest == header + "\n\n" + cats + "\n";
    Unanchored(header, rest, anchor);
    NextAfterBlank("\n" + body, anchor);
    NextAfterBlank(body, anchor);
    ParsedLast(cats, '\n', anchor);
  }

  lemma MergedSectionIs(content: string, news: News, anchor: string)
    ensures var (header, cats) :=
              (content[..NextCategory(content, anchor)], Categories(Merged(Parsed(content, anchor), news), anchor));
            MergedSection(content, news, anchor) == Strip(RStrip(header) + "\n\n" + Strip(cats) + "\n")
  {
  }

  // ------------------------------------------------------ anchors inside entries

  lemma {:induction false} AnchorCounts(s: string, k: nat, anchor: string)
    requires k < |s| && CategoryAt(s[k..], anchor).Some?
    ensures NextCategory(s, anchor) <= k && Parsed(s, anchor) != []
  {
    hide CategoryAt, EntriesIn;
    if CategoryAt(s, anchor).None? {
      assert k > 0 by { assert s[0..] == s; }
      assert s[1..][k - 1..] == s[k..];
      AnchorCounts(s[1..], k - 1, anchor);
    }
  }

  lemma {:induction false} InsideText(es: seq<Entry>, e: Entry, i: nat, anchor: string) returns (k: nat)
    requires e in es && i < |e| && CategoryAt(e[i..], anchor).Some?
    ensures k < |EntriesText(es)| && CategoryAt(EntriesText(es)[k..], anchor).Some?
  {
    hide CategoryAt;
    var (first, rest) := ("\n" + es[0], EntriesText(es[1..]));
    assert EntriesText(es) == first + rest;
    if e == es[0] {
      k := i + 1;
      assert EntriesText(es)[k..] == e[i..] + rest;
      CategoryAtGrows(e[i..], rest, anchor);
    } else {
      var j := InsideText(es[1..], e, i, anchor);
      k := |first| + j;
      assert EntriesText(es)[k..] == rest[j..];
    }
  }

  /** A category of well-formed entries is read back as it is exactly when no
      entry has an anchor of the version inside, wherever it stands. */
  lemma GroupReadIff(g: Group, anchor: string)
    requires IsAnchor(anchor) && GoodShape(g)
    ensures Parsed(GroupText(g, anchor), anchor) == [g] <==> NoneInside(g.entries, anchor)
  {
    if NoneInside(g.entries, anchor) {
      GroupsRead([g], anchor);
      assert [g][1..] == [] && GroupText(g, anchor) + "" == GroupText(g, anchor);
    } else {
      var e :| e in g.entries && !NoCategory(e, anchor);
      var i :| 0 <= i < |e| && CategoryAt(e[i..], anchor).Some?;
      var k := InsideText(g.entries, e, i, anchor);
      TwoGroups(g, k, anchor);
    }
  }

  lemma TwoGroups(g: Group, k: nat, anchor: string)
    requires IsAnchor(anchor) && IsCategory(g.category)
    requires k < |EntriesText(g.entries)| && CategoryAt(EntriesText(g.entries)[k..], anchor).Some?
    ensures |Parsed(GroupText(g, anchor), anchor)| >= 2
  {
    var rest := BodyText(g) + "\n";
    var j := InBody(g, k, anchor);
    assert GroupText(g, anchor) == AnchorLine(g.category, anchor) + rest;
    hide *;
    FirstGroup(g.category, rest, anchor);
    var n := NextCategory(rest, anchor);
    AnchorCounts(rest, j, anchor);
    assert rest[n..][j - n..] == rest[j..];
    AnchorCounts(rest[n..], j - n, anchor);
  }

  lemma InBody(g: Group, k: nat, anchor: string) returns (j: nat)
    requires k < |EntriesText(g.entries)| && CategoryAt(EntriesText(g.entries)[k..], anchor).Some?
    ensures j < |BodyText(g) + "\n"| && CategoryAt((BodyText(g) + "\n")[j..], anchor).Some?
  {
    var (heading, text) := ("\n### " + Capitalized(g.category), EntriesText(g.entries));
    assert BodyText(g) == heading + text;
    CategoryAtGrows(text[k..], "\n", anchor);
    hide *;
    j := |heading| + k;
    assert (heading + text + "\n")[j..] == text[k..] + "\n";
  }

  /** A category whose text ends with its own anchor again is read back empty:
      the entry that quotes the anchor last takes all the others with it. */
  lemma OwnAnchorLosesEntries(s: string, c: string, anchor: string)
    requires IsAnchor(anchor) && IsCategory(c)
    ensures EntriesOf(Parsed(s + anchor + c + "}" + "\n", anchor), c) == []
  {
    hide *;
    var last := anchor + c + "}" + "\n";
    CategoryRead(c, "\n", anchor);
    assert last[|anchor| + |c| + 1..] == "\n" && s + last == s + anchor + c + "}" + "\n";
    LastRead(s, last, c, anchor);
    LastWins(Parsed(s + last, anchor), c);
  }

  lemma LastWins(news: News, c: string)
    requires news != [] && news[|news| - 1].category == c
    ensures EntriesOf(news, c) == news[|news| - 1].entries
  {
  }

  lemma NoEntriesIn(anchor: string)
    requires IsAnchor(anchor)
    ensures NextCategory("\n", anchor) == 1 && EntriesIn("\n") == [] && Parsed("", anchor) == []
  {
    NotAnchored("\n", anchor);
    assert "\n"[1..] == "" && IsSpace('\n');
    assert Strip("\n") == "" && Lines("") == [""];
    assert IsSkipped("");
  }

  /** The last anchor is read last. */
  lemma {:induction false} LastRead(s: string, last: string, c: string, anchor: string)
    requires IsAnchor(anchor) && CategoryAt(last, anchor) == Some(c) && last[|anchor| + |c| + 1..] == "\n"
    ensures var gs := Parsed(s + last, anchor); gs != [] && gs[|gs| - 1] == Group(c, [])
    decreases |s|
  {
    var all := s + last;
    var at := CategoryAt(all, anchor);
    hide *;
    if s == "" {
      assert all == last;
      LastAlone(last, c, anchor);
    } else if at.None? {
      assert all[1..] == s[1..] + last;
      LastRead(s[1..], last, c, anchor);
      NoneParsed(all, anchor);
    } else {
      var k := |anchor| + |at.value| + 1;
      AnchorsApart(s, last, anchor);
      var n := NextWithin(s[k..], last, anchor);
      LastRead(s[k + n..], last, c, anchor);
      assert all[k..] == s[k..] + last && s[k..][n..] == s[k + n..];
      FirstAnchor(at.value, all, s[k..] + last, anchor);
    }
  }

  lemma NextWithin(s: string, last: string, anchor: string) returns (n: nat)
    requires CategoryAt(last, anchor).Some? && last != ""
    ensures n <= |s| && n == NextCategory(s + last, anchor) && (s + last)[n..] == s[n..] + last
  {
    hide *;
    assert (s + last)[|s|..] == last;
    AnchorCounts(s + last, |s|, anchor);
    n := NextCategory(s + last, anchor);
  }

  lemma LastAlone(last: string, c: string, anchor: string)
    requires IsAnchor(anchor) && CategoryAt(last, anchor) == Some(c) && last[|anchor| + |c| + 1..] == "\n"
    ensures Parsed(last, anchor) == [Group(c, [])]
  {
    NoEntriesIn(anchor);
    FirstAnchor(c, last, "\n", anchor);
    hide *;
    assert "\n"[..1] == "\n" && "\n"[1..] == "";
  }

  /** An anchor does not reach into the next. */
  lemma AnchorsApart(s: string, last: string, anchor: string)
    requires IsAnchor(anchor) && s != "" && CategoryAt(s + last, anchor).Some? && CategoryAt(last, anchor).Some?
    ensures |anchor| + |CategoryAt(s + last, anchor).value| + 1 <= |s|
  {
    var all := s + last;
    AnchorStart(last, anchor);
    assert all[|s|] == '{';
    assert |s| >= |anchor| by { assert all[..|anchor|] == anchor; }
    var t := all[|anchor|..];
    assert t[|s| - |anchor|] == all[|s|];
    LettersStop(t, |s| - |anchor|);
  }

  lemma LettersStop(s: string, i: nat)
    requires i < |s| && !IsLower(s[i])
    ensures Letters(s) <= i
  {
    var _ := Letters(s);
  }
}
