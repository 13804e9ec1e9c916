/** Where the section of a version is in the text of the changelog, and what in a
    section ends it early or is an escape. */
module ChangelogSections {
  import opened Text
  import opened Decimal
  import opened ChangelogReading
  import opened ChangelogFile
  import Template

  // ------------------------------------------------------------------ versions

  lemma DigitRunIs(s: string, n: nat)
    requires n <= |s| && (forall i :: 0 <= i < n ==> IsDigit(s[i])) && (n < |s| ==> !IsDigit(s[n]))
    ensures DigitRun(s) == n
  {
    var _ := DigitRun(s);
  }

  lemma NumberGrows(s: string, t: string, end: char)
    requires NumberUpTo(s, end).Some?
    ensures NumberUpTo(s + t, end) == Some((NumberUpTo(s, end).value.0, NumberUpTo(s, end).value.1 + t))
  {
    var n := DigitRun(s);
    DigitRunIs(s + t, n);
    assert (s + t)[..n] == s[..n] && (s + t)[n + 1..] == s[n + 1..] + t;
  }

  lemma NumberStops(s: string, t: string, end: char)
    requires NumberUpTo(s, end).None? && (t == "" || (!IsDigit(t[0]) && t[0] != end))
    ensures NumberUpTo(s + t, end).None?
  {
    var n := DigitRun(s);
    DigitRunIs(s + t, n);
  }

  lemma VersionGrows(s: string, t: string)
    requires VersionAt(s).Some?
    ensures VersionAt(s + t) == VersionAt(s)
  {
    hide NumberUpTo;
    var a := s[3..];
    assert (s + t)[3..] == a + t && (s + t)[..3] == s[..3];
    var (major, rest) := NumberUpTo(a, '-').value;
    NumberGrows(a, t, '-');
    var (minor, tail) := NumberUpTo(rest, '-').value;
    NumberGrows(rest, t, '-');
    NumberGrows(tail, t, '}');
  }

  lemma BlankStops(c: char)
    requires IsSpace(c)
    ensures !IsDigit(c) && c != '-' && c != '}' && c != '#' && c != 'v'
  {
  }

  /** What no anchor goes on into. */
  predicate IsBreakAfter(t: string) {
    t == "" || (!IsDigit(t[0]) && t[0] != '-' && t[0] != '}' && t[0] != '#' && t[0] != 'v')
  }

  /** An anchor has no blank in it, and no brace but at its ends. */
  lemma VersionAtBreak(s: string, t: string)
    requires IsBreakAfter(t) && s != ""
    ensures VersionAt(s + t) == VersionAt(s)
  {
    if t == "" {
      assert s + t == s;
    } else if VersionAt(s).Some? {
      VersionGrows(s, t);
    } else {
      NumbersStop(s, t);
    }
  }

  lemma NumbersStop(s: string, t: string)
    requires t != "" && IsBreakAfter(t) && s != "" && VersionAt(s).None?
    ensures VersionAt(s + t).None?
  {
    hide NumberUpTo;
    if |s| < 3 {
      assert (s + t)[|s|] == t[0] && (|s| == 1 || |s| == 2);
      assert "{#v"[1] == '#' && "{#v"[2] == 'v';
    } else if StartsWith(s, "{#v") {
      var a := s[3..];
      assert (s + t)[3..] == a + t;
      if NumberUpTo(a, '-').None? {
        NumberStops(a, t, '-');
      } else {
        NumberGrows(a, t, '-');
        var (_, rest) := NumberUpTo(a, '-').value;
        if NumberUpTo(rest, '-').None? {
          NumberStops(rest, t, '-');
        } else {
          NumberGrows(rest, t, '-');
          NumberStops(NumberUpTo(rest, '-').value.1, t, '}');
        }
      }
    } else {
      assert (s + t)[..3] == s[..3];
    }
  }

  lemma NumberRead(n: nat, end: char, rest: string)
    requires !IsDigit(end)
    ensures NumberUpTo(FromNat(n) + [end] + rest, end) == Some((n, rest))
  {
    var d := FromNat(n);
    var s := d + [end] + rest;
    assert s == d + ([end] + rest);
    DigitRunAll(d, [end] + rest);
    Decimal.RoundTrip(n);
    assert s[..|d|] == d && s[|d| + 1..] == rest;
  }

  lemma NumberNotRead(n: nat, end: char, other: char, rest: string)
    requires !IsDigit(end) && !IsDigit(other) && other != end
    ensures NumberUpTo(FromNat(n) + [other] + rest, end).None?
  {
    var d := FromNat(n);
    assert d + [other] + rest == d + ([other] + rest);
    DigitRunAll(d, [other] + rest);
  }

  lemma NotDigits()
    ensures !IsDigit('-') && !IsDigit('}')
  {
  }

  /** The numbers of a version, before a brace or another character. */
  lemma NumbersRead(v: Version, end: char, rest: string)
    requires end == '}' || end == '-'
    ensures NumbersAt(Text3(v, '-') + [end] + rest) == if end == '}' then Some(v) else None
  {
    var tail := FromNat(v.patch) + [end] + rest;
    var middle := FromNat(v.minor) + ['-'] + tail;
    NotDigits();
    hide FromNat, IsDigit, NumberUpTo;
    assert Text3(v, '-') + [end] + rest == FromNat(v.major) + ['-'] + middle;
    NumberRead(v.major, '-', middle);
    NumberRead(v.minor, '-', tail);
    if end == '}' { NumberRead(v.patch, '}', rest); } else { NumberNotRead(v.patch, '}', '-', rest); }
  }

  /** A version's anchor is read back, whatever follows it, and the anchors of its
      categories are not taken for it. */
  lemma AnchorRoundTrip(v: Version, rest: string)
    ensures VersionAt(VersionAnchor(v) + rest) == Some(v)
    ensures VersionAt(CategoryStart(v) + rest) == None
  {
    hide *;
    NumbersRead(v, '}', rest);
    NumbersRead(v, '-', rest);
    AnchorTexts(v, rest);
    VersionAfter(Text3(v, '-') + ['}'] + rest);
    VersionAfter(Text3(v, '-') + ['-'] + rest);
  }

  lemma AnchorTexts(v: Version, rest: string)
    ensures VersionAnchor(v) + rest == "{#v" + (Text3(v, '-') + ['}'] + rest)
    ensures CategoryStart(v) + rest == "{#v" + (Text3(v, '-') + ['-'] + rest)
  {
    hide Text3;
  }

  lemma VersionAfter(s: string)
    ensures VersionAt("{#v" + s) == NumbersAt(s)
  {
    hide NumbersAt;
    assert ("{#v" + s)[3..] == s;
  }

  lemma Text3Chars(v: Version, separator: char)
    ensures forall i :: 0 <= i < |Text3(v, separator)| ==>
              IsDigit(Text3(v, separator)[i]) || Text3(v, separator)[i] == separator
    ensures Text3(v, separator) != "" && IsDigit(Text3(v, separator)[|Text3(v, separator)| - 1])
  {
    var (a, b, c) := (FromNat(v.major), FromNat(v.minor), FromNat(v.patch));
    hide FromNat, IsDigit;
    forall i | 0 <= i < |Text3(v, separator)|
      ensures IsDigit(Text3(v, separator)[i]) || Text3(v, separator)[i] == separator {
      var j := i - |a| - 1;
      var k := j - |b| - 1;
      if i < |a| { assert IsDigit(a[i]); }
      if 0 <= j < |b| { assert IsDigit(b[j]); }
      if 0 <= k { assert IsDigit(c[k]); }
    }
    assert IsDigit(c[|c| - 1]);
  }

  lemma AnchorChars(v: Version)
    ensures IsAnchor(CategoryStart(v)) && '\\' !in CategoryStart(v)
    ensures StartsWith(VersionAnchor(v), "{#") && forall i :: 1 <= i < |VersionAnchor(v)| ==> VersionAnchor(v)[i] != '{'
  {
    Text3Chars(v, '-');
    var (t, a, b) := (Text3(v, '-'), CategoryStart(v), VersionAnchor(v));
    assert a == "{#v" + t + "-" && b == "{#v" + t + "}";
    hide Text3, CategoryStart, VersionAnchor;
    assert a[..2] == "{#" && b[..2] == "{#";
    forall i | 0 <= i < |a| ensures !IsSpace(a[i]) && a[i] != '\\' && (i > 0 ==> a[i] != '{') {
      if 3 <= i < 3 + |t| { assert a[i] == t[i - 3]; }
    }
    forall i | 1 <= i < |b| ensures b[i] != '{' {
      if 3 <= i < 3 + |t| { assert b[i] == t[i - 3]; }
    }
  }

  // ---------------------------------------------------------- ends of sections

  predicate IsTight(s: string) {
    s == "" || !IsSpace(s[|s| - 1])
  }

  lemma {:induction false} LStripConcat(x: string, y: string)
    ensures LStrip(x + y) == if LStrip(x) == "" then LStrip(y) else LStrip(x) + y
  {
    if x == "" {
      assert x + y == y;
    } else {
      assert (x + y)[1..] == x[1..] + y;
      if IsSpace(x[0]) { LStripConcat(x[1..], y); }
    }
  }

  lemma {:induction false} LStripTight(s: string)
    requires s != "" && IsTight(s)
    ensures LStrip(s) != ""
  {
    if IsSpace(s[0]) { LStripTight(s[1..]); }
  }

  /** No line starts, after blanks, with the anchor of a version. */
  ghost predicate NoBoundary(s: string) {
    forall i :: 0 <= i < |s| ==> !EndsSection(s[i..])
  }

  lemma VersionStart(s: string)
    requires VersionAt(s).Some?
    ensures s != "" && StartsWith(s, "{#v") && s[0] == '{'
  {
    assert s[0] == "{#v"[0];
  }

  lemma EndsGrows(x: string, y: string)
    requires EndsSection(x)
    ensures EndsSection(x + y)
  {
    VersionStart(LStrip(x));
    hide VersionAt;
    LStripConcat(x, y);
    VersionGrows(LStrip(x), y);
  }

  lemma EndsConcat(a: string, b: string)
    requires a != "" && IsTight(a) && (b == "" || IsSpace(b[0]))
    ensures EndsSection(a + b) == EndsSection(a)
  {
    hide VersionAt, IsSpace;
    LStripConcat(a, b);
    LStripTight(a);
    if b != "" { BlankStops(b[0]); }
    VersionAtBreak(LStrip(a), b);
  }

  /** Where a section ends when its text does not end it. */
  lemma {:induction false} EndAfter(a: string, b: string)
    requires NoBoundary(a) && IsTight(a) && (b == "" || IsSpace(b[0]))
    ensures SectionEnd(a + b) == |a| + SectionEnd(b)
  {
    hide EndsSection, IsSpace;
    if a == "" {
      assert a + b == b;
    } else {
      assert (a + b)[1..] == a[1..] + b && a[0..] == a;
      EndsConcat(a, b);
      assert NoBoundary(a[1..]) by { assert forall i :: 0 <= i < |a[1..]| ==> a[1..][i..] == a[i + 1..]; }
      EndAfter(a[1..], b);
    }
  }

  lemma {:induction false} EndWithin(s: string, k: nat)
    requires k < |s| && EndsSection(s[k..])
    ensures SectionEnd(s) <= k
  {
    hide EndsSection;
    if !EndsSection(s) {
      assert k > 0 by { assert s[0..] == s; }
      assert s[1..][k - 1..] == s[k..];
      EndWithin(s[1..], k - 1);
    }
  }

  /** A section reaches to its end exactly when no line of it starts with the
      anchor of a version. */
  lemma SectionEndIff(a: string, b: string)
    requires IsTight(a) && (b == "" || EndsSection(b))
    ensures SectionEnd(a + b) == |a| <==> NoBoundary(a)
  {
    hide *;
    EndHere(b);
    if NoBoundary(a) {
      EndAfter(a, b);
    } else {
      var i := BoundaryInside(a);
      EndsGrows(a[i..], b);
      assert (a + b)[i..] == a[i..] + b;
      EndWithin(a + b, i);
    }
  }

  lemma EndHere(b: string)
    requires b == "" || EndsSection(b)
    ensures SectionEnd(b) == 0 && (b == "" || IsSpace(b[0]))
  {
  }

  lemma BoundaryInside(s: string) returns (i: nat)
    requires !NoBoundary(s)
    ensures i < |s| && EndsSection(s[i..])
  {
    hide EndsSection;
    i :| 0 <= i < |s| && EndsSection(s[i..]);
  }

  /** The text of a section has no end inside, however it is cut. */
  lemma {:induction false} ContentUnended(s: string, k: nat)
    requires k <= SectionEnd(s)
    ensures NoBoundary(s[..k])
  {
    hide EndsSection;
    if k > 0 {
      ContentUnended(s[1..], k - 1);
      forall i | 0 <= i < k ensures !EndsSection(s[..k][i..]) {
        if i > 0 {
          assert s[..k][i..] == s[i..k] && s[1..][..k - 1] == s[1..k] && s[1..k][i - 1..] == s[i..k];
        } else {
          assert s[..k][0..] == s[..k] && s[..k] + s[k..] == s;
          if EndsSection(s[..k]) { EndsGrows(s[..k], s[k..]); }
        }
      }
    }
  }

  lemma {:induction false} EndIsBoundary(s: string)
    ensures var b := s[SectionEnd(s)..]; b == "" || EndsSection(b)
  {
    hide EndsSection;
    if s != "" && !EndsSection(s) {
      EndIsBoundary(s[1..]);
      assert s[1..][SectionEnd(s[1..])..] == s[SectionEnd(s)..];
    } else {
      assert s[0..] == s;
    }
  }

  // ------------------------------------------------------------ harmless text

  /** Neither an end of a section nor an escape of the template. */
  ghost predicate IsCalm(s: string) {
    NoBoundary(s) && Template.NoEscape(s)
  }

  lemma CalmConcat(a: string, b: string)
    requires IsCalm(a) && IsCalm(b) && IsTight(a) && (b == "" || b[0] == '\n')
    ensures IsCalm(a + b)
  {
    Template.NoEscapeConcat(a, b);
    hide EndsSection, Template.NoEscape;
    forall i | 0 <= i < |a + b| ensures !EndsSection((a + b)[i..]) {
      if i < |a| {
        assert (a + b)[i..] == a[i..] + b;
        EndsConcat(a[i..], b);
      } else {
        assert (a + b)[i..] == b[i - |a|..];
      }
    }
  }

  lemma CalmLead(s: string)
    requires s != "" && s[0] == '\n' && IsCalm(s)
    ensures IsCalm("\n" + s)
  {
    var t := "\n" + s;
    assert t[1..] == s && s[0..] == s && t[0..] == t;
    assert LStrip(t) == LStrip(s);
    Template.NoEscapeConcat("\n", s);
    hide Template.NoEscape, LStrip;
    forall i | 0 <= i < |t| ensures !EndsSection(t[i..]) {
      if i > 0 { assert t[i..] == s[i - 1..]; }
    }
  }

  lemma NoBoundaryPart(s: string, lo: nat, hi: nat)
    requires NoBoundary(s) && lo <= hi <= |s|
    ensures NoBoundary(s[lo..hi])
  {
    var t := s[lo..hi];
    hide EndsSection;
    forall i | 0 <= i < |t| ensures !EndsSection(t[i..]) {
      assert s[lo + i..] == t[i..] + s[hi..];
      if EndsSection(t[i..]) { EndsGrows(t[i..], s[hi..]); }
    }
  }

  lemma NoEscapePart(s: string, lo: nat, hi: nat)
    requires Template.NoEscape(s) && lo <= hi <= |s|
    ensures Template.NoEscape(s[lo..hi])
  {
    hide Template.IsKept;
    var t := s[lo..hi];
    assert forall i :: 0 <= i < |t| ==> t[i] == s[lo + i];
    forall i | 0 <= i < |t| - 1 && t[i] == '\\' ensures Template.IsKept(t[i + 1]) {
      assert s[lo + i] == '\\' && s[lo + i + 1] == t[i + 1];
    }
  }

  lemma CalmPart(s: string, lo: nat, hi: nat)
    requires IsCalm(s) && lo <= hi <= |s|
    ensures IsCalm(s[lo..hi])
  {
    NoBoundaryPart(s, lo, hi);
    NoEscapePart(s, lo, hi);
  }

  lemma EndsHasBrace(s: string)
    requires EndsSection(s)
    ensures '{' in s
  {
    hide VersionAt;
    LStripShape(s);
    var t := LStrip(s);
    assert StartsWith(t, "{#v") by { VersionStart(t); }
    assert t[0] == "{#v"[0] == '{' && t[0] == s[|s| - |t|];
  }

  lemma QuietIsCalm(s: string)
    requires '{' !in s && '\\' !in s
    ensures IsCalm(s)
  {
    hide EndsSection;
    forall i | 0 <= i < |s| ensures !EndsSection(s[i..]) {
      if EndsSection(s[i..]) { EndsHasBrace(s[i..]); }
    }
  }

  // ------------------------------------------------------ placing a section

  lemma {:induction false} FindIs(s: string, part: string, k: nat)
    requires k < |s| && StartsWith(s[k..], part) && forall i :: 0 <= i < k ==> !StartsWith(s[i..], part)
    ensures Find(s, part) == k
  {
    hide StartsWith;
    assert s[0..] == s;
    if k > 0 {
      assert s[1..][k - 1..] == s[k..];
      assert forall i :: 0 <= i < k - 1 ==> s[1..][i..] == s[i + 1..];
      FindIs(s[1..], part, k - 1);
    }
  }

  /** An anchor does not overlap itself: one put where none is before is the first. */
  lemma AnchorPlaced(before: string, was: string, rest: string, v: Version)
    requires before <= was && Find(was, VersionAnchor(v)) >= |before|
    ensures Find(before + VersionAnchor(v) + rest, VersionAnchor(v)) == |before|
  {
    var anchor := VersionAnchor(v);
    var text := before + anchor + rest;
    AnchorChars(v);
    FoundAt(was, anchor);
    hide VersionAnchor, Find;
    assert anchor[0] == "{#"[0] == '{';
    assert text[|before|..] == anchor + rest && text[|before|] == '{';
    forall i | 0 <= i < |before| ensures !StartsWith(text[i..], anchor) {
      var j := |before| - i;
      if j < |anchor| {
        assert text[i..][j] != anchor[j];
      } else {
        assert !StartsWith(was[i..], anchor);
        assert text[i..][..|anchor|] == was[i..][..|anchor|];
      }
    }
    FindIs(text, anchor, |before|);
  }

  lemma DividedIs(before: string, anchor: string, content: string, after: string)
    requires SectionEnd(content + after) == |content|
    ensures Divided(before + anchor + content + after, |before|, |anchor|) == Section(before, content, after)
  {
    hide SectionEnd;
    var (text, rest) := (before + anchor + content + after, content + after);
    assert text == before + (anchor + rest);
    assert text[..|before|] == before && text[|before| + |anchor|..] == rest;
    assert rest[..|content|] == content && rest[|content|..] == after;
  }

  lemma SectionIs(before: string, content: string, after: string, v: Version)
    requires Find(before + VersionAnchor(v) + content + after, VersionAnchor(v)) == |before|
    requires SectionEnd(content + after) == |content|
    ensures var text := before + VersionAnchor(v) + content + after;
            HasSection(text, v) && SectionOf(text, v) == Section(before, content, after)
  {
    AnchorChars(v);
    hide VersionAnchor, Find, SectionEnd, Divided;
    DividedIs(before, VersionAnchor(v), content, after);
  }

  lemma DividedWhole(text: string, k: nat, anchor: string)
    requires k + |anchor| <= |text| && StartsWith(text[k..], anchor)
    ensures var s := Divided(text, k, |anchor|); text == s.before + anchor + s.content + s.after && |s.before| == k
  {
    hide SectionEnd;
    var rest := text[k + |anchor|..];
    assert text[k..] == anchor + rest && text == text[..k] + text[k..];
    assert rest == rest[..SectionEnd(rest)] + rest[SectionEnd(rest)..];
  }

  /** A text is its section with what is around it; the section goes to its end. */
  lemma SectionSplits(text: string, v: Version)
    requires HasSection(text, v)
    ensures var s := SectionOf(text, v);
            && text == s.before + VersionAnchor(v) + s.content + s.after && |s.before| == Find(text, VersionAnchor(v))
            && NoBoundary(s.content) && (s.after == "" || EndsSection(s.after))
  {
    FoundAt(text, VersionAnchor(v));
    var k := Find(text, VersionAnchor(v));
    hide VersionAnchor, Find, SectionEnd, NoBoundary, EndsSection, StartsWith;
    DividedWhole(text, k, VersionAnchor(v));
    var rest := text[k + |VersionAnchor(v)|..];
    ContentUnended(rest, SectionEnd(rest));
    EndIsBoundary(rest);
  }
}
