/** One line of the release tracking issue: parsing and printing
    `- [x] name | key=value ...` and rewriting the line of a named task. */
module Checklist {
  import opened Text

  datatype Pair = Pair(key: string, value: string)
  type Metadata = seq<Pair>

  datatype Task = Task(checked: bool, name: string, metadata: Metadata)

  predicate IsWord(c: char) {
    'a' <= c <= 'z' || 'A' <= c <= 'Z' || '0' <= c <= '9' || c == '_'
  }

  // ---------------------------------------------------------------- metadata

  function WordRun(s: string): (n: nat)
    ensures n <= |s|
  {
    if s == "" || !IsWord(s[0]) then 0 else 1 + WordRun(s[1..])
  }

  function ValueRun(s: string): (n: nat)
    ensures n <= |s|
  {
    if s == "" || IsSpace(s[0]) then 0 else 1 + ValueRun(s[1..])
  }

  datatype Match = NoMatch | Match(pair: Pair, rest: string)

  /** `(\w+)\s*=\s*(\S+)` at the start of `s`. */
  function MatchPair(s: string): (m: Match)
    ensures m.Match? ==> |m.rest| < |s|
  {
    var n := WordRun(s);
    if n == 0 then NoMatch else MatchAfterKey(s[..n], LStrip(s[n..]))
  }

  function MatchAfterKey(key: string, s: string): (m: Match)
    ensures m.Match? ==> |m.rest| < |s|
  {
    if s == "" || s[0] != '=' then NoMatch else MatchValue(key, LStrip(s[1..]))
  }

  function MatchValue(key: string, s: string): (m: Match)
    ensures m.Match? ==> |m.rest| < |s|
  {
    var k := ValueRun(s);
    if k == 0 then NoMatch else Match(Pair(key, s[..k]), s[k..])
  }

  /** `re.findall(r"(\w+)\s*=\s*(\S+)", s)`. */
  function FindPairs(s: string): Metadata
    decreases |s|
  {
    if s == "" then []
    else match MatchPair(s)
      case NoMatch => FindPairs(s[1..])
      case Match(pair, rest) => [pair] + FindPairs(rest)
  }

  predicate GoodPair(p: Pair) {
    && p.key != "" && (forall i :: 0 <= i < |p.key| ==> IsWord(p.key[i]))
    && p.value != "" && (forall i :: 0 <= i < |p.value| ==> !IsSpace(p.value[i]))
  }

  predicate GoodMetadata(md: Metadata) {
    forall i :: 0 <= i < |md| ==> GoodPair(md[i])
  }

  /** `metadata.get(key)`: a later pair of the line overrides an earlier one. */
  function Get(md: Metadata, key: string): Option<string> {
    if md == [] then None
    else if md[|md| - 1].key == key then Some(md[|md| - 1].value)
    else Get(md[..|md| - 1], key)
  }

  /** The last pair of that key. */
  predicate IsLastPair(md: Metadata, i: nat, p: Pair) {
    i < |md| && md[i] == p && forall j :: i < j < |md| ==> md[j].key != p.key
  }

  lemma {:induction false} GetIs(md: Metadata, key: string, value: string)
    ensures Get(md, key) == Some(value) <==> exists i: nat :: IsLastPair(md, i, Pair(key, value))
  {
    if md != [] {
      var (front, p) := (md[..|md| - 1], Pair(key, value));
      GetIs(front, key, value);
      forall i: nat | i < |md| - 1
        ensures IsLastPair(md, i, p) <==> IsLastPair(front, i, p) && md[|md| - 1].key != key
      {
      }
      assert IsLastPair(md, |md| - 1, p) <==> md[|md| - 1] == p;
      assert forall i: nat :: IsLastPair(front, i, p) ==> IsLastPair(md, i, p) || md[|md| - 1].key == key;
    }
  }

  // ------------------------------------------------------------------- lines

  /** `parse_metadata_line`. */
  function ParseLine(line: string): Option<Task> {
    var a := LStrip(line);
    if a == "" || a[0] != '-' then None else ParseBox(LStrip(a[1..]))
  }

  function ParseBox(b: string): Option<Task> {
    if |b| < 3 || b[0] != '[' || (b[1] != ' ' && b[1] != 'x' && b[1] != 'X') || b[2] != ']' then None else
    ParseTail(b[1] != ' ', b[3..])
  }

  /** What follows the box: a blank, a name of at least one character, and
      after the first bar the metadata. */
  function ParseTail(checked: bool, r: string): Option<Task> {
    var bar := IndexOf(r, '|');
    if bar < 2 || !IsSpace(r[0]) then None else
    var metadata := if bar < |r| then FindPairs(LStrip(r[bar + 1..])) else [];
    Some(Task(checked, Strip(r[1..bar]), metadata))
  }

  function FormatPair(p: Pair): string {
    if p.key == "commit" || EndsWith(p.key, "_commit") then p.key + "= " + p.value
    else p.key + "=" + p.value
  }

  function FormatPairs(md: Metadata): string {
    if md == [] then ""
    else if |md| == 1 then FormatPair(md[0])
    else FormatPair(md[0]) + " " + FormatPairs(md[1..])
  }

  /** `format_metadata_line`. */
  function FormatLine(checked: bool, name: string, md: Metadata): string {
    "- [" + (if checked then "x" else " ") + "] " + name +
    (if md == [] then "" else " | " + FormatPairs(md))
  }

  // -------------------------------------------------------------- round trip

  lemma {:induction false} WordRunAll(s: string, tail: string)
    requires forall i :: 0 <= i < |s| ==> IsWord(s[i])
    requires tail == "" || !IsWord(tail[0])
    ensures WordRun(s + tail) == |s|
  {
    if s == "" {
      assert s + tail == tail;
    } else {
      assert (s + tail)[1..] == s[1..] + tail;
      WordRunAll(s[1..], tail);
    }
  }

  lemma {:induction false} ValueRunAll(s: string, tail: string)
    requires forall i :: 0 <= i < |s| ==> !IsSpace(s[i])
    requires tail == "" || IsSpace(tail[0])
    ensures ValueRun(s + tail) == |s|
  {
    if s == "" {
      assert s + tail == tail;
    } else {
      assert (s + tail)[1..] == s[1..] + tail;
      ValueRunAll(s[1..], tail);
    }
  }

  lemma LStripAt(s: string)
    requires s == "" || !IsSpace(s[0])
    ensures LStrip(s) == s && LStrip(" " + s) == s
  {
    assert (" " + s)[1..] == s;
  }

  function Gap(key: string): string {
    if key == "commit" || EndsWith(key, "_commit") then " " else ""
  }

  lemma MatchFormatted(p: Pair, tail: string)
    requires GoodPair(p) && (tail == "" || IsSpace(tail[0]))
    ensures MatchPair(FormatPair(p) + tail) == Match(p, tail)
  {
    FormattedPair(p, tail);
    MatchKey(p.key, "=" + Gap(p.key) + (p.value + tail));
    MatchEquals(p.key, p.value + tail);
    MatchFormattedValue(p, tail);
    hide *;
  }

  lemma FormattedPair(p: Pair, tail: string)
    ensures FormatPair(p) + tail == p.key + ("=" + Gap(p.key) + (p.value + tail))
  {
    hide EndsWith;
    assert FormatPair(p) == p.key + "=" + Gap(p.key) + p.value;
  }

  lemma MatchFormattedValue(p: Pair, tail: string)
    requires GoodPair(p) && (tail == "" || IsSpace(tail[0]))
    ensures MatchValue(p.key, p.value + tail) == Match(p, tail)
  {
    var value := p.value + tail;
    ValueRunAll(p.value, tail);
    assert value[..|p.value|] == p.value && value[|p.value|..] == tail;
  }

  lemma MatchEquals(key: string, value: string)
    requires value == "" || !IsSpace(value[0])
    ensures MatchAfterKey(key, "=" + Gap(key) + value) == MatchValue(key, value)
  {
    hide MatchValue, LStrip, Gap;
    var rest := "=" + Gap(key) + value;
    assert rest[1..] == Gap(key) + value;
    GapStripped(key, value);
  }

  lemma GapStripped(key: string, value: string)
    requires value == "" || !IsSpace(value[0])
    ensures LStrip(Gap(key) + value) == value
  {
    LStripAt(value);
    assert "" + value == value;
    hide LStrip;
  }

  lemma MatchKey(key: string, rest: string)
    requires key != "" && forall i :: 0 <= i < |key| ==> IsWord(key[i])
    requires rest != "" && rest[0] == '='
    ensures MatchPair(key + rest) == MatchAfterKey(key, rest)
  {
    hide MatchAfterKey;
    WordRunAll(key, rest);
    LStripAt(rest);
    var s := key + rest;
    assert s[..|key|] == key && s[|key|..] == rest;
  }

  lemma {:induction false} FindFormatted(md: Metadata)
    requires GoodMetadata(md)
    ensures FindPairs(FormatPairs(md)) == md
  {
    hide MatchPair, FormatPair, GoodPair;
    if |md| == 1 {
      MatchFormatted(md[0], "");
      assert FormatPair(md[0]) + "" == FormatPair(md[0]);
      FindMatched(FormatPair(md[0]), md[0], "");
    } else if |md| > 1 {
      var rest := FormatPairs(md[1..]);
      MatchFormatted(md[0], " " + rest);
      assert FormatPairs(md) == FormatPair(md[0]) + (" " + rest);
      FindMatched(FormatPairs(md), md[0], " " + rest);
      BlankSkipped(rest);
      FindFormatted(md[1..]);
    }
  }

  lemma FindMatched(s: string, p: Pair, rest: string)
    requires MatchPair(s) == Match(p, rest)
    ensures FindPairs(s) == [p] + FindPairs(rest)
  {
    assert s != "";
    hide MatchPair;
  }

  lemma BlankSkipped(s: string)
    ensures FindPairs(" " + s) == FindPairs(s)
  {
    assert MatchPair(" " + s) == NoMatch;
    hide MatchPair;
    assert (" " + s)[1..] == s;
  }

  lemma {:induction false} WordRunIsWord(s: string)
    ensures forall i :: 0 <= i < WordRun(s) ==> IsWord(s[i])
  {
    if s != "" && IsWord(s[0]) { WordRunIsWord(s[1..]); }
  }

  lemma {:induction false} ValueRunIsValue(s: string)
    ensures forall i :: 0 <= i < ValueRun(s) ==> !IsSpace(s[i])
  {
    if s != "" && !IsSpace(s[0]) { ValueRunIsValue(s[1..]); }
  }

  lemma MatchedIsGood(s: string)
    ensures MatchPair(s).Match? ==> GoodPair(MatchPair(s).pair)
  {
    WordRunIsWord(s);
    var rest := LStrip(s[WordRun(s)..]);
    if rest != "" { ValueRunIsValue(LStrip(rest[1..])); }
  }

  lemma {:induction false} FoundPairsAreGood(s: string)
    ensures GoodMetadata(FindPairs(s))
    decreases |s|
  {
    MatchedIsGood(s);
    hide MatchPair, GoodPair;
    if s != "" {
      match MatchPair(s) {
        case NoMatch => FoundPairsAreGood(s[1..]);
        case Match(_, rest) => FoundPairsAreGood(rest);
      }
    }
  }

  /** A name a formatted line gives back. The empty name survives only in front
      of a bar. */
  predicate GoodName(name: string, md: Metadata) {
    Trimmed(name) && '|' !in name && (name != "" || md != [])
  }

  function AfterBox(name: string, md: Metadata): string {
    " " + name + (if md == [] then "" else " | " + FormatPairs(md))
  }

  lemma FormattedTail(checked: bool, name: string, md: Metadata)
    ensures ParseLine(FormatLine(checked, name, md)) == ParseTail(checked, AfterBox(name, md))
  {
    hide ParseTail, FormatPairs;
    var line := FormatLine(checked, name, md);
    var x := if checked then 'x' else ' ';
    var box := ['[', x, ']'];
    assert line == ['-', ' '] + box + AfterBox(name, md);
    assert LStrip(line) == line;
    assert line[1..] == [' '] + box + AfterBox(name, md);
    assert line[1..][1..] == box + AfterBox(name, md);
    assert LStrip(line[1..]) == LStrip(line[1..][1..]) == box + AfterBox(name, md);
    assert (box + AfterBox(name, md))[3..] == AfterBox(name, md);
  }

  /** The box and the name of a formatted line, whatever its metadata. */
  lemma FormattedName(checked: bool, name: string, md: Metadata)
    requires GoodName(name, md)
    ensures ParseLine(FormatLine(checked, name, md)) == Some(Task(checked, name, FindPairs(FormatPairs(md))))
  {
    FormattedTail(checked, name, md);
    hide ParseLine, FormatLine, FindPairs, FormatPairs, LStrip, Strip, IndexOf, Trimmed;
    var r := AfterBox(name, md);
    var head := " " + name + (if md == [] then "" else " ");
    assert forall k :: 0 <= k < |head| ==> head[k] != '|';
    assert r == head + if md == [] then "" else "| " + FormatPairs(md);
    IndexOfIs(r, '|', |head|);
    if md == [] {
      assert r[1..|head|] == name;
      StripTrims(name);
      assert FormatPairs(md) == "" && FindPairs("") == [] by { EmptyMetadata(); }
    } else {
      assert r[1..|head|] == name + " ";
      StripPadded(name);
      assert r[|head| + 1..] == " " + FormatPairs(md);
      LeadingBlankIgnored(FormatPairs(md));
    }
  }

  lemma EmptyMetadata()
    ensures FormatPairs([]) == "" && FindPairs("") == []
  {
  }

  lemma StripPadded(name: string)
    requires Trimmed(name)
    ensures Strip(name + " ") == name
  {
    var s := name + " ";
    assert s[..|s| - 1] == name;
    if name == "" {
      assert s[1..] == "";
    } else {
      assert LStrip(s) == s;
      assert RStrip(s) == RStrip(name) == name;
    }
  }

  /** Stripping leading blanks does not change what `findall` finds. */
  lemma {:induction false} LeadingBlankIgnored(s: string)
    ensures FindPairs(LStrip(" " + s)) == FindPairs(s)
  {
    hide FindPairs;
    assert (" " + s)[1..] == s;
    assert LStrip(" " + s) == LStrip(s);
    if s != "" && IsSpace(s[0]) {
      LeadingBlankIgnored(s[1..]);
      assert (" " + s[1..])[1..] == s[1..];
      SpaceSkipped(s);
    }
  }

  lemma SpaceSkipped(s: string)
    requires s != "" && IsSpace(s[0])
    ensures FindPairs(s) == FindPairs(s[1..])
  {
    assert MatchPair(s) == NoMatch;
    hide MatchPair;
  }

  /** Printing then parsing a task line is the identity on exactly these tasks. */
  lemma RoundTrip(checked: bool, name: string, md: Metadata)
    ensures ParseLine(FormatLine(checked, name, md)) == Some(Task(checked, name, md))
            <==> GoodName(name, md) && GoodMetadata(md)
  {
    hide ParseLine, FormatLine, FindPairs, FormatPairs, GoodPair;
    if GoodName(name, md) {
      FormattedName(checked, name, md);
      if GoodMetadata(md) {
        FindFormatted(md);
      } else {
        FoundPairsAreGood(FormatPairs(md));
      }
    } else {
      ParsedIsGood(FormatLine(checked, name, md));
      if name == "" && md == [] {
        FormattedTail(checked, name, md);
        assert AfterBox(name, md) == " ";
      }
    }
  }

  /** Every parsed line holds a trimmed, bar-free name and good metadata. */
  lemma ParsedIsGood(line: string)
    ensures ParseLine(line).Some? ==>
              var t := ParseLine(line).value;
              Trimmed(t.name) && '|' !in t.name && GoodMetadata(t.metadata)
  {
    if ParseLine(line).Some? {
      var b := LStrip(LStrip(line)[1..]);
      assert ParseLine(line) == ParseBox(b);
      TailIsGood(b[1] != ' ', b[3..]);
    }
  }

  lemma TailIsGood(checked: bool, r: string)
    ensures ParseTail(checked, r).Some? ==>
              var t := ParseTail(checked, r).value;
              Trimmed(t.name) && '|' !in t.name && GoodMetadata(t.metadata)
  {
    hide FindPairs, Strip, GoodPair, LStrip;
    var bar := IndexOf(r, '|');
    if bar >= 2 {
      StripTrims(r[1..bar]);
      if bar < |r| { FoundPairsAreGood(LStrip(r[bar + 1..])); }
    }
  }

  // ------------------------------------------------------- names with a bar

  /** Metadata as it ends a line. */
  function Tail(md: Metadata): string {
    " | " + FormatPairs(md)
  }

  predicate EndsInMetadata(found: Metadata, md: Metadata) {
    |md| <= |found| && found[|found| - |md|..] == md
  }

  /** A blank-free name that holds a bar is cut there, but the metadata printed
      after it still comes last in what is read. */
  lemma MetadataIsLast(checked: bool, name: string, md: Metadata)
    requires GoodMetadata(md) && md != [] && forall i :: 0 <= i < |name| ==> !IsSpace(name[i])
    ensures var t := ParseLine(FormatLine(checked, name, md));
            t.Some? ==> t.value.checked == checked && EndsInMetadata(t.value.metadata, md)
  {
    FormattedTail(checked, name, md);
    hide ParseLine, FormatLine, FindPairs, FormatPairs, LStrip, Strip, IndexOf, GoodPair;
    var r := AfterBox(name, md);
    var bar := IndexOf(r, '|');
    assert r == " " + name + Tail(md) && r[|name| + 2] == '|';
    if bar >= 2 {
      var rest := r[bar + 1..];
      LStripFound(rest);
      if bar <= |name| {
        assert rest == name[bar..] + Tail(md);
        FoundLast(name[bar..], md);
      } else {
        assert rest == " " + FormatPairs(md);
        FoundAfterBar(md);
      }
    }
  }

  lemma LStripFound(s: string)
    ensures FindPairs(LStrip(s)) == FindPairs(s)
  {
    LeadingBlankIgnored(s);
    hide FindPairs;
    assert (" " + s)[1..] == s;
  }

  lemma FoundAfterBar(md: Metadata)
    requires GoodMetadata(md)
    ensures FindPairs(" " + FormatPairs(md)) == md
  {
    FindFormatted(md);
    BlankSkipped(FormatPairs(md));
    hide *;
  }

  lemma FoundInTail(md: Metadata)
    requires GoodMetadata(md)
    ensures FindPairs(Tail(md)) == md
  {
    var s := " " + FormatPairs(md);
    assert Tail(md) == " " + ("|" + s);
    BlankSkipped("|" + s);
    BarSkipped(s);
    FoundAfterBar(md);
    hide *;
  }

  lemma BarSkipped(s: string)
    ensures FindPairs("|" + s) == FindPairs(s)
  {
    assert MatchPair("|" + s) == NoMatch;
    hide MatchPair;
    assert ("|" + s)[1..] == s;
  }

  lemma {:induction false} FoundLast(t: string, md: Metadata)
    requires GoodMetadata(md) && forall i :: 0 <= i < |t| ==> !IsSpace(t[i])
    ensures EndsInMetadata(FindPairs(t + Tail(md)), md)
    decreases |t|
  {
    hide MatchPair, FindPairs, Tail, FormatPairs, GoodPair;
    FoundInTail(md);
    FoundAfterBar(md);
    if t == "" {
      assert t + Tail(md) == Tail(md);
    } else {
      var s := t + Tail(md);
      assert s[1..] == t[1..] + Tail(md);
      FoundLast(t[1..], md);
      MatchStops(t, md);
      FindStep(s);
    }
  }

  lemma FindStep(s: string)
    requires s != ""
    ensures FindPairs(s)
            == match MatchPair(s) case NoMatch => FindPairs(s[1..]) case Match(p, rest) => [p] + FindPairs(rest)
  {
    hide MatchPair;
  }

  /** A match that begins in a blank-free text stops before the metadata. */
  lemma MatchStops(t: string, md: Metadata)
    requires t != "" && forall i :: 0 <= i < |t| ==> !IsSpace(t[i])
    ensures var m := MatchPair(t + Tail(md));
            m.Match? ==> m.rest == Tail(md) || m.rest == " " + FormatPairs(md)
  {
    var n := WordRun(t);
    TailBlank(md);
    hide Tail, FormatPairs;
    var s := t + Tail(md);
    WordRunStops(t, Tail(md));
    assert s[n..] == t[n..] + Tail(md);
    if n == |t| {
      assert s[n..] == Tail(md);
    } else {
      LStripAt(s[n..]);
      if t[n] == '=' {
        assert s[n..][1..] == t[n + 1..] + Tail(md);
        ValueStops(s[..n], t[n + 1..], md);
      }
    }
  }

  lemma TailBlank(md: Metadata)
    ensures Tail(md) != "" && Tail(md)[0] == ' ' && LStrip(Tail(md)) == "|" + (" " + FormatPairs(md))
  {
    hide FormatPairs;
    var s := "|" + (" " + FormatPairs(md));
    assert Tail(md) == " " + s;
    LStripAt(s);
  }

  lemma ValueStops(key: string, u: string, md: Metadata)
    requires forall i :: 0 <= i < |u| ==> !IsSpace(u[i])
    ensures var m := MatchValue(key, LStrip(u + Tail(md)));
            m.Match? && (m.rest == Tail(md) || m.rest == " " + FormatPairs(md))
  {
    TailBlank(md);
    hide Tail, FormatPairs, LStrip;
    if u == "" {
      assert u + Tail(md) == Tail(md);
      var blank := " " + FormatPairs(md);
      ValueRunAll("|", blank);
      assert ("|" + blank)[1..] == blank;
    } else {
      LStripAt(u + Tail(md));
      ValueRunAll(u, Tail(md));
      assert (u + Tail(md))[|u|..] == Tail(md);
    }
  }

  lemma {:induction false} WordRunStops(t: string, tail: string)
    requires tail != "" && !IsWord(tail[0])
    ensures WordRun(t + tail) == WordRun(t)
  {
    if t == "" {
      assert t + tail == tail;
    } else {
      assert (t + tail)[1..] == t[1..] + tail;
      WordRunStops(t[1..], tail);
    }
  }

  // ----------------------------------------------------------------- updates

  predicate Named(line: string, task: string) {
    var t := ParseLine(line);
    t.Some? && Lower(t.value.name) == Lower(task)
  }

  function UpdatedLine(line: string, task: string, checked: bool, md: Metadata): string {
    if Named(line, task) then FormatLine(checked, task, md) else line
  }

  function UpdatedLines(lines: seq<string>, task: string, checked: bool, md: Metadata): (r: seq<string>)
    ensures |r| == |lines|
  {
    seq(|lines|, i requires 0 <= i < |lines| => UpdatedLine(lines[i], task, checked, md))
  }

  predicate HasTask(lines: seq<string>, task: string) {
    exists i :: 0 <= i < |lines| && Named(lines[i], task)
  }

  /** `update_task_in_body` on the body's lines: None is the ValueError. */
  function UpdateTask(lines: seq<string>, task: string, checked: bool, md: Metadata): Option<seq<string>> {
    if HasTask(lines, task) then Some(UpdatedLines(lines, task, checked, md)) else None
  }

  method UpdateTaskInBody(lines: seq<string>, task: string, checked: bool, md: Metadata)
    returns (updated: Option<seq<string>>)
    ensures updated == UpdateTask(lines, task, checked, md)
  {
    hide ParseLine, FormatLine, Lower;
    var updatedLines := [];
    var found := false;
    for i := 0 to |lines|
      invariant updatedLines == UpdatedLines(lines, task, checked, md)[..i]
      invariant found <==> exists j :: 0 <= j < i && Named(lines[j], task)
    {
      var parsed := ParseLine(lines[i]);
      if parsed.Some? && Lower(parsed.value.name) == Lower(task) {
        updatedLines := updatedLines + [FormatLine(checked, task, md)];
        found := true;
      } else {
        updatedLines := updatedLines + [lines[i]];
      }
    }
    var all := UpdatedLines(lines, task, checked, md);
    assert all[..|lines|] == all;
    updated := if found then Some(updatedLines) else None;
  }

  /** An update sets exactly the named task; every other line parses as before. */
  lemma UpdateSetsExactly(lines: seq<string>, task: string, checked: bool, md: Metadata, i: nat)
    requires i < |lines| && GoodName(task, md) && GoodMetadata(md)
    ensures ParseLine(UpdatedLines(lines, task, checked, md)[i]) ==
            if Named(lines[i], task) then Some(Task(checked, task, md)) else ParseLine(lines[i])
  {
    RoundTrip(checked, task, md);
    hide ParseLine, FormatLine, Lower;
  }

  lemma UpdatedLineName(line: string, task: string, checked: bool, md: Metadata, other: string)
    requires GoodName(task, md)
    ensures Named(UpdatedLine(line, task, checked, md), other) <==> Named(line, other)
  {
    FormattedName(checked, task, md);
    hide ParseLine, FormatLine, Lower;
  }

  /** Updates of tasks that differ beyond letter case commute, errors included. */
  lemma UpdatesCommute(lines: seq<string>, a: string, ca: bool, ma: Metadata, b: string, cb: bool, mb: Metadata)
    requires GoodName(a, ma) && GoodName(b, mb) && Lower(a) != Lower(b)
    ensures HasTask(UpdatedLines(lines, a, ca, ma), b) <==> HasTask(lines, b)
    ensures UpdatedLines(UpdatedLines(lines, a, ca, ma), b, cb, mb) ==
            UpdatedLines(UpdatedLines(lines, b, cb, mb), a, ca, ma)
  {
    var u, v := UpdatedLines(lines, a, ca, ma), UpdatedLines(lines, b, cb, mb);
    forall i | 0 <= i < |lines|
      ensures Named(u[i], b) <==> Named(lines[i], b)
      ensures Named(v[i], a) <==> Named(lines[i], a)
    {
      UpdatedLineName(lines[i], a, ca, ma, b);
      UpdatedLineName(lines[i], b, cb, mb, a);
    }
    forall i | 0 <= i < |lines| ensures !(Named(lines[i], a) && Named(lines[i], b)) {}
    hide Named, FormatLine, Lower;
  }

  /** A later update of the same task overrides an earlier one, and cannot fail
      once the earlier one has succeeded. */
  lemma UpdateOverrides(lines: seq<string>, task: string, c1: bool, m1: Metadata, c2: bool, m2: Metadata)
    requires GoodName(task, m1) && HasTask(lines, task)
    ensures UpdateTask(UpdatedLines(lines, task, c1, m1), task, c2, m2) == UpdateTask(lines, task, c2, m2)
  {
    hide FormatLine, Named, GoodName;
    var u := UpdatedLines(lines, task, c1, m1);
    forall i | 0 <= i < |lines|
      ensures Named(u[i], task) <==> Named(lines[i], task)
      ensures UpdatedLine(u[i], task, c2, m2) == UpdatedLine(lines[i], task, c2, m2)
    {
      UpdatedLineName(lines[i], task, c1, m1, task);
    }
    var i :| 0 <= i < |lines| && Named(lines[i], task);
    assert Named(u[i], task);
    assert UpdatedLines(u, task, c2, m2) == UpdatedLines(lines, task, c2, m2);
  }
}
