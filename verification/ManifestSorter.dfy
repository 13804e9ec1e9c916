/** The runtimes manifest sorter: entries move with the comments attached to
    them, and a second run finds nothing to do. A newline-terminated file is
    the sequence of its lines. */
module ManifestSorter {
  import opened Text
  import opened Sorting

  // -------------------------------------------------------------------- lines

  /** `[p for p in s.split(" ") if p]`. */
  function Words(s: string): seq<string> {
    if s == "" then []
    else if s[0] == ' ' then Words(s[1..])
    else [s[..IndexOf(s, ' ')]] + Words(s[IndexOf(s, ' ')..])
  }

  predicate IsBlank(line: string) {
    Strip(line) == ""
  }

  /** Neither blank nor a comment. */
  predicate IsEntry(line: string) {
    Strip(line) != "" && Strip(line)[0] != '#'
  }

  function FileName(line: string): string {
    var parts := Words(Strip(line));
    if |parts| == 2 then parts[1] else if parts != [] then parts[0] else ""
  }

  function Normalized(line: string): string {
    var parts := Words(Strip(line));
    if IsEntry(line) && |parts| == 2 then parts[0] + "  " + parts[1] else line
  }

  function AllNormalized(lines: seq<string>): seq<string> {
    seq(|lines|, i requires 0 <= i < |lines| => Normalized(lines[i]))
  }

  function LastChar(s: string): Option<char> {
    if s == "" then None else Some(s[|s| - 1])
  }

  lemma {:induction false} WordsAreWords(s: string)
    ensures forall w :: w in Words(s) ==> w != "" && ' ' !in w
    ensures s != "" && s[0] != ' ' ==> Words(s) != [] && Words(s)[0][0] == s[0]
    ensures s != "" && s[|s| - 1] != ' ' ==>
              (var ws := Words(s); ws != [] && LastChar(ws[|ws| - 1]) == Some(s[|s| - 1]))
  {
    if s == "" {
    } else if s[0] == ' ' {
      WordsAreWords(s[1..]);
    } else {
      var n := IndexOf(s, ' ');
      WordsAreWords(s[n..]);
    }
  }

  lemma WordOf(w: string, rest: string)
    requires w != "" && ' ' !in w && (rest == "" || rest[0] == ' ')
    ensures Words(w + rest) == [w] + Words(rest)
  {
    IndexOfIs(w + rest, ' ', |w|);
    assert (w + rest)[..|w|] == w && (w + rest)[|w|..] == rest;
  }

  lemma TwoWords(a: string, b: string)
    requires a != "" && b != "" && ' ' !in a && ' ' !in b
    ensures Words(a + "  " + b) == [a, b]
  {
    assert a + "  " + b == a + ("  " + b);
    WordOf(a, "  " + b);
    assert ("  " + b)[1..] == " " + b && (" " + b)[1..] == b;
    WordOf(b, "");
    assert b + "" == b;
  }

  /** Normalising a line once is enough, and keeps what kind of line it is. */
  lemma NormalizedIsStable(line: string)
    ensures IsEntry(Normalized(line)) == IsEntry(line)
    ensures FileName(Normalized(line)) == FileName(line)
    ensures Normalized(Normalized(line)) == Normalized(line)
  {
    var s := Strip(line);
    StripTrims(line);
    WordsAreWords(s);
    var parts := Words(s);
    if IsEntry(line) && |parts| == 2 {
      var (a, b) := (parts[0], parts[1]);
      assert a in parts && b in parts;
      var n := a + "  " + b;
      assert n[0] == a[0] == s[0] && n[|n| - 1] == b[|b| - 1] == s[|s| - 1];
      StripTrims(n);
      TwoWords(a, b);
    }
  }

  // ------------------------------------------------------------------- blocks

  /** An entry with the comments and blank lines before it. */
  datatype Block = Block(name: string, lines: seq<string>)

  function BlockName(b: Block): string {
    b.name
  }

  function Blocks(lines: seq<string>, attached: seq<string>): seq<Block> {
    if lines == [] then []
    else if IsEntry(lines[0])
        then [Block(FileName(lines[0]), attached + [Normalized(lines[0])])] + Blocks(lines[1..], [])
    else Blocks(lines[1..], attached + [lines[0]])
  }

  function Flat(blocks: seq<Block>): seq<string> {
    if blocks == [] then [] else blocks[0].lines + Flat(blocks[1..])
  }

  /** The index of the first entry, or |lines|. */
  function FirstEntry(lines: seq<string>): (i: nat)
    ensures i <= |lines| && (i < |lines| ==> IsEntry(lines[i])) && forall k :: 0 <= k < i ==> !IsEntry(lines[k])
  {
    if lines == [] || IsEntry(lines[0]) then 0 else 1 + FirstEntry(lines[1..])
  }

  /** One past the last entry, or 0. */
  function AfterEntries(lines: seq<string>): (n: nat)
    ensures n <= |lines| && (n > 0 ==> IsEntry(lines[n - 1])) && forall k :: n <= k < |lines| ==> !IsEntry(lines[k])
  {
    if lines == [] then 0 else if IsEntry(lines[|lines| - 1]) then |lines| else AfterEntries(lines[..|lines| - 1])
  }

  /** One past the last blank line, or 0. */
  function AfterBlank(lines: seq<string>): (n: nat)
    ensures n <= |lines|
  {
    if lines == [] then 0 else if IsBlank(lines[|lines| - 1]) then |lines| else AfterBlank(lines[..|lines| - 1])
  }

  /** The header ends at the last blank line before the first entry. */
  function HeaderEnd(lines: seq<string>): (n: nat)
    ensures n <= FirstEntry(lines)
  {
    AfterBlank(lines[..FirstEntry(lines)])
  }

  function Top(lines: seq<string>): seq<string> {
    lines[..HeaderEnd(lines)]
  }

  function Middle(lines: seq<string>): seq<string> {
    FirstBeforeLast(lines);
    if AfterEntries(lines) == 0 then [] else lines[HeaderEnd(lines)..AfterEntries(lines)]
  }

  function Bottom(lines: seq<string>): seq<string> {
    lines[AfterEntries(lines)..]
  }

  function SortedMiddle(lines: seq<string>): seq<string> {
    Flat(StableSorted(Blocks(Middle(lines), []), BlockName))
  }

  /** The sorted file: header, blocks by file name, trailer. */
  function SortedLines(lines: seq<string>): seq<string> {
    if AfterEntries(lines) == 0 then lines else Top(lines) + SortedMiddle(lines) + Bottom(lines)
  }

  lemma FirstBeforeLast(lines: seq<string>)
    ensures AfterEntries(lines) > 0 ==> FirstEntry(lines) < AfterEntries(lines)
    ensures AfterEntries(lines) == 0 <==> FirstEntry(lines) == |lines|
  {
    hide IsEntry;
    var (i, n) := (FirstEntry(lines), AfterEntries(lines));
    assert i < |lines| ==> IsEntry(lines[i]);
    assert n > 0 ==> IsEntry(lines[n - 1]);
  }

  lemma FlatConcat(a: seq<Block>, b: seq<Block>)
    ensures Flat(a + b) == Flat(a) + Flat(b)
  {
    if a == [] {
      assert a + b == b;
    } else {
      assert (a + b)[1..] == a[1..] + b;
      FlatConcat(a[1..], b);
    }
  }

  lemma {:induction false} BlocksAppend(lines: seq<string>, i: nat, attached: seq<string>)
    requires i < |lines|
    ensures var rest := Leftover(lines[..i], attached);
            Blocks(lines[..i + 1], attached) ==
            Blocks(lines[..i], attached)
                + (if IsEntry(lines[i]) then [Block(FileName(lines[i]), rest + [Normalized(lines[i])])] else [])
    ensures Leftover(lines[..i + 1], attached) == if IsEntry(lines[i]) then []
            else Leftover(lines[..i], attached) + [lines[i]]
  {
    hide IsEntry, FileName, Normalized;
    assert lines[..i + 1][1..] == lines[1..][..i];
    if i == 0 {
      assert lines[1..][..0] == [] && lines[..0] == [];
    } else {
      assert lines[..i][1..] == lines[1..][..i - 1];
      BlocksAppend(lines[1..], i - 1, if IsEntry(lines[0]) then [] else attached + [lines[0]]);
    }
  }

  /** The lines after the last entry, with what was attached before. */
  function Leftover(lines: seq<string>, attached: seq<string>): seq<string> {
    if lines == [] then attached
    else Leftover(lines[1..], if IsEntry(lines[0]) then [] else attached + [lines[0]])
  }

  /** The first loop: both indices are -1 in a file without entries. */
  method FindEntries(lines: seq<string>) returns (first: int, last: int)
    ensures last + 1 == AfterEntries(lines)
    ensures if first == -1 then AfterEntries(lines) == 0 else first == FirstEntry(lines) < AfterEntries(lines)
  {
    hide IsEntry;
    first, last := -1, -1;
    for i := 0 to |lines|
      invariant last + 1 == AfterEntries(lines[..i])
      invariant if first == -1 then forall k :: 0 <= k < i ==> !IsEntry(lines[k]) else first == FirstEntry(lines) < i
    {
      assert lines[..i + 1][..i] == lines[..i];
      if IsEntry(lines[i]) {
        if first == -1 {
          first := i;
          FirstIs(lines, i);
        }
        last := i;
      }
    }
    assert lines[..|lines|] == lines;
    FirstBeforeLast(lines);
    if first == -1 { NoEntries(lines); }
  }

  method FindBlank(pre: seq<string>) returns (last: int)
    ensures last + 1 == AfterBlank(pre)
  {
    hide IsBlank;
    last := -1;
    for i := 0 to |pre|
      invariant last + 1 == AfterBlank(pre[..i])
    {
      assert pre[..i + 1][..i] == pre[..i];
      if IsBlank(pre[i]) { last := i; }
    }
    assert pre[..|pre|] == pre;
  }

  method SortManifest(lines: seq<string>) returns (newLines: seq<string>, modified: bool)
    ensures newLines == SortedLines(lines)
    ensures modified <==> newLines != lines
  {
    hide IsEntry, AfterBlank, FirstEntry, AfterEntries, Blocks, Flat, StableSorted, Leftover;
    newLines := lines;
    var firstEntryIdx, lastEntryIdx := FindEntries(lines);
    if firstEntryIdx == -1 { return newLines, false; }
    var pre := lines[..firstEntryIdx];
    var lastBlankIdx := FindBlank(pre);
    var top, remaining := pre[..lastBlankIdx + 1], pre[lastBlankIdx + 1..];
    var bottom := lines[lastEntryIdx + 1..];
    var middle := remaining + lines[firstEntryIdx..lastEntryIdx + 1];
    assert top == Top(lines) && middle == Middle(lines) && bottom == Bottom(lines);
    var entries, attached := GroupEntries(middle);
    MiddleEnds(lines);
    if attached != [] { bottom := attached + bottom; }
    entries := StableSorted(entries, BlockName);
    var sorted := Join(entries);
    newLines := top + sorted + bottom;
    modified := newLines != lines;
  }

  method GroupEntries(middle: seq<string>) returns (entries: seq<Block>, attached: seq<string>)
    ensures entries == Blocks(middle, []) && attached == Leftover(middle, [])
  {
    hide IsEntry, FileName, Normalized;
    entries, attached := [], [];
    assert middle[..0] == [];
    for i := 0 to |middle|
      invariant entries == Blocks(middle[..i], []) && attached == Leftover(middle[..i], [])
    {
      BlocksAppend(middle, i, []);
      if IsEntry(middle[i]) {
        entries := entries + [Block(FileName(middle[i]), attached + [Normalized(middle[i])])];
        attached := [];
      } else {
        attached := attached + [middle[i]];
      }
    }
    assert middle[..|middle|] == middle;
  }

  method Join(entries: seq<Block>) returns (lines: seq<string>)
    ensures lines == Flat(entries)
  {
    lines := [];
    for i := 0 to |entries|
      invariant lines == Flat(entries[..i])
    {
      assert entries[..i + 1] == entries[..i] + [entries[i]];
      FlatConcat(entries[..i], [entries[i]]);
      FlatOne(entries[i]);
      lines := lines + entries[i].lines;
    }
    assert entries[..|entries|] == entries;
  }

  lemma FlatOne(b: Block)
    ensures Flat([b]) == b.lines
  {
    assert [b][1..] == [] && b.lines + [] == b.lines;
  }

  lemma FirstIs(lines: seq<string>, i: nat)
    requires i < |lines| && IsEntry(lines[i]) && forall k :: 0 <= k < i ==> !IsEntry(lines[k])
    ensures FirstEntry(lines) == i
  {
    hide IsEntry;
    var _ := FirstEntry(lines);
  }

  lemma NoEntries(lines: seq<string>)
    requires forall k :: 0 <= k < |lines| ==> !IsEntry(lines[k])
    ensures AfterEntries(lines) == 0
  {
    hide IsEntry;
    var _ := AfterEntries(lines);
  }

  lemma {:induction false} LeftoverEnds(lines: seq<string>, attached: seq<string>)
    requires lines != [] && IsEntry(lines[|lines| - 1])
    ensures Leftover(lines, attached) == []
  {
    hide IsEntry;
    if |lines| > 1 {
      LeftoverEnds(lines[1..], if IsEntry(lines[0]) then [] else attached + [lines[0]]);
    }
  }

  lemma EndsInEntry(middle: seq<string>)
    requires middle != [] && IsEntry(middle[|middle| - 1])
    ensures Leftover(middle, []) == []
  {
    LeftoverEnds(middle, []);
  }

  // ------------------------------------------------------- what a run conserves

  lemma NormalizedFirst(x: string, rest: seq<string>)
    ensures AllNormalized([x] + rest) == [Normalized(x)] + AllNormalized(rest)
  {
    hide Normalized;
  }

  lemma FlatFirst(b: Block, rest: seq<Block>)
    ensures Flat([b] + rest) == b.lines + Flat(rest)
  {
    assert ([b] + rest)[1..] == rest;
  }

  /** Taken apart into blocks and put back, lines are only normalised. */
  lemma {:induction false} BlocksKeepLines(lines: seq<string>, attached: seq<string>)
    ensures Flat(Blocks(lines, attached)) + Leftover(lines, attached) == attached + AllNormalized(lines)
  {
    hide IsEntry, FileName, Flat, AllNormalized;
    if lines == [] {
      NothingNormalized();
    } else {
      var rest := lines[1..];
      assert lines == [lines[0]] + rest;
      NormalizedFirst(lines[0], rest);
      if IsEntry(lines[0]) {
        BlocksKeepLines(rest, []);
        FlatFirst(Block(FileName(lines[0]), attached + [Normalized(lines[0])]), Blocks(rest, []));
        hide Normalized;
        Regroup(attached, [Normalized(lines[0])], Flat(Blocks(rest, [])), Leftover(rest, []), AllNormalized(rest));
      } else {
        BlocksKeepLines(rest, attached + [lines[0]]);
        assert Normalized(lines[0]) == lines[0];
        hide Normalized;
        assert attached + ([lines[0]] + AllNormalized(rest)) == attached + [lines[0]] + AllNormalized(rest);
      }
    }
  }

  lemma NothingNormalized()
    ensures AllNormalized([]) == [] && Flat([]) == []
  {
  }

  lemma Regroup(a: seq<string>, x: seq<string>, f: seq<string>, l: seq<string>, n: seq<string>)
    requires f + l == [] + n
    ensures a + x + f + l == a + (x + n)
  {
    assert f + l == n;
    assert a + x + f + l == a + x + (f + l);
  }

  lemma {:induction false} FlatPermuted(blocks: seq<Block>)
    ensures multiset(Flat(StableSorted(blocks, BlockName))) == multiset(Flat(blocks))
  {
    if blocks != [] {
      FlatPermuted(blocks[1..]);
      FlatInserted(blocks[0], StableSorted(blocks[1..], BlockName));
    }
  }

  lemma {:induction false} FlatInserted(b: Block, rest: seq<Block>)
    ensures multiset(Flat(Inserted(b, BlockName, rest))) == multiset(b.lines) + multiset(Flat(rest))
  {
    hide AtMost;
    if rest == [] || AtMost(BlockName(b), BlockName(rest[0])) {
      assert ([b] + rest)[1..] == rest;
    } else {
      FlatInserted(b, rest[1..]);
      assert ([rest[0]] + Inserted(b, BlockName, rest[1..]))[1..] == Inserted(b, BlockName, rest[1..]);
    }
  }

  lemma {:induction false} NoEntryIsNormal(lines: seq<string>)
    requires forall k :: 0 <= k < |lines| ==> !IsEntry(lines[k])
    ensures AllNormalized(lines) == lines
  {
    hide IsEntry;
  }

  lemma NormalizedConcat(a: seq<string>, b: seq<string>)
    ensures AllNormalized(a + b) == AllNormalized(a) + AllNormalized(b)
  {
    hide Normalized;
  }

  /** The file in three parts; the middle one ends in an entry, the others hold
      none. */
  lemma MiddleEnds(lines: seq<string>)
    requires AfterEntries(lines) > 0
    ensures HeaderEnd(lines) < AfterEntries(lines)
    ensures Leftover(Middle(lines), []) == []
    ensures lines == Top(lines) + Middle(lines) + Bottom(lines)
    ensures AllNormalized(Top(lines)) == Top(lines) && AllNormalized(Bottom(lines)) == Bottom(lines)
  {
    FirstBeforeLast(lines);
    hide IsEntry, FirstEntry, AfterEntries, AfterBlank, AllNormalized, Leftover;
    EndsInEntry(Middle(lines));
    NoEntryIsNormal(Top(lines));
    NoEntryIsNormal(Bottom(lines));
  }

  lemma MiddleConserved(lines: seq<string>)
    requires AfterEntries(lines) > 0
    ensures multiset(SortedMiddle(lines)) == multiset(AllNormalized(Middle(lines)))
    ensures |SortedMiddle(lines)| == |Middle(lines)|
  {
    MiddleEnds(lines);
    var middle := Middle(lines);
    BlocksKeepLines(middle, []);
    FlatPermuted(Blocks(middle, []));
    SameLength(middle);
    hide Blocks, Flat, StableSorted, Leftover, AllNormalized, AfterEntries, Middle, Top, Bottom;
    assert [] + AllNormalized(middle) == AllNormalized(middle);
    assert Flat(Blocks(middle, [])) + [] == Flat(Blocks(middle, []));
    assert |SortedMiddle(lines)| == |multiset(SortedMiddle(lines))| == |multiset(AllNormalized(middle))|
           == |AllNormalized(middle)|;
  }

  lemma SameLength(lines: seq<string>)
    ensures |AllNormalized(lines)| == |lines|
  {
  }

  lemma Placed(t: seq<string>, m: seq<string>, b: seq<string>, s: seq<string>)
    requires |s| == |m|
    ensures |t + s + b| == |t + m + b|
    ensures (t + s + b)[..|t|] == (t + m + b)[..|t|] && (t + s + b)[|t| + |m|..] == (t + m + b)[|t| + |m|..]
  {
    assert (t + s + b)[..|t|] == t == (t + m + b)[..|t|];
    assert (t + s + b)[|t| + |m|..] == b == (t + m + b)[|t| + |m|..];
  }

  /** No line is lost, added or altered but for the spacing of entries. */
  lemma SortConserves(lines: seq<string>)
    ensures multiset(SortedLines(lines)) == multiset(AllNormalized(lines))
  {
    if AfterEntries(lines) == 0 {
      hide IsEntry, Normalized, FirstEntry, AfterBlank, AfterEntries, AllNormalized;
      NoEntryIsNormal(lines);
    } else {
      MiddleEnds(lines);
      MiddleConserved(lines);
      NormalizedConcat(Top(lines), Middle(lines));
      NormalizedConcat(Top(lines) + Middle(lines), Bottom(lines));
      hide SortedMiddle, AllNormalized, AfterEntries, Top, Middle, Bottom;
    }
  }

  /** The header and the trailer stay where they are. */
  lemma SortKeepsEnds(lines: seq<string>)
    requires AfterEntries(lines) > 0
    ensures var (h, n) := (HeaderEnd(lines), AfterEntries(lines));
            h < n && |SortedLines(lines)| == |lines| && SortedLines(lines)[..h] == lines[..h]
                && SortedLines(lines)[n..] == lines[n..]
  {
    MiddleEnds(lines);
    MiddleConserved(lines);
    Placed(Top(lines), Middle(lines), Bottom(lines), SortedMiddle(lines));
    hide SortedMiddle, AfterEntries, HeaderEnd, FirstEntry;
  }

  // ------------------------------------------------------------- second runs

  /** The file names of the entries, from the top. */
  function Names(lines: seq<string>): seq<string> {
    if lines == [] then [] else (if IsEntry(lines[0]) then [FileName(lines[0])] else []) + Names(lines[1..])
  }

  function NamesOf(blocks: seq<Block>): seq<string> {
    seq(|blocks|, i requires 0 <= i < |blocks| => blocks[i].name)
  }

  ghost predicate NamesOrdered(names: seq<string>) {
    forall i, j :: 0 <= i < j < |names| ==> AtMost(names[i], names[j])
  }

  lemma {:induction false} NamesConcat(a: seq<string>, b: seq<string>)
    ensures Names(a + b) == Names(a) + Names(b)
  {
    hide IsEntry, FileName;
    if a == [] {
      assert a + b == b;
    } else {
      assert (a + b)[1..] == a[1..] + b;
      NamesConcat(a[1..], b);
    }
  }

  lemma {:induction false} BlockNames(lines: seq<string>, attached: seq<string>)
    ensures NamesOf(Blocks(lines, attached)) == Names(lines)
  {
    hide IsEntry, FileName, Normalized;
    if lines != [] {
      if IsEntry(lines[0]) {
        BlockNames(lines[1..], []);
        var b := Block(FileName(lines[0]), attached + [Normalized(lines[0])]);
        var rest := Blocks(lines[1..], []);
        assert NamesOf([b] + rest) == [b.name] + NamesOf(rest);
      } else {
        BlockNames(lines[1..], attached + [lines[0]]);
      }
    }
  }

  /** A block as the sorter makes it: other lines, then its normalised entry. */
  ghost predicate GoodBlock(b: Block) {
    && b.lines != []
    && (forall k :: 0 <= k < |b.lines| - 1 ==> !IsEntry(b.lines[k]))
    && IsEntry(b.lines[|b.lines| - 1]) && FileName(b.lines[|b.lines| - 1]) == b.name
    && Normalized(b.lines[|b.lines| - 1]) == b.lines[|b.lines| - 1]
  }

  lemma {:induction false} BlocksAreGood(lines: seq<string>, attached: seq<string>)
    requires forall k :: 0 <= k < |attached| ==> !IsEntry(attached[k])
    ensures forall b :: b in Blocks(lines, attached) ==> GoodBlock(b)
  {
    if lines != [] {
      NormalizedIsStable(lines[0]);
      hide IsEntry, FileName, Normalized;
      if IsEntry(lines[0]) {
        BlocksAreGood(lines[1..], []);
      } else {
        BlocksAreGood(lines[1..], attached + [lines[0]]);
      }
    }
  }

  lemma {:induction false} NoNames(lines: seq<string>)
    requires forall k :: 0 <= k < |lines| ==> !IsEntry(lines[k])
    ensures Names(lines) == []
  {
    hide IsEntry;
    if lines != [] { NoNames(lines[1..]); }
  }

  /** What a good block puts in the file. */
  lemma GoodBlockNames(b: Block)
    requires GoodBlock(b)
    ensures Names(b.lines) == [b.name] && AllNormalized(b.lines) == b.lines
  {
    hide IsEntry, FileName;
    var (front, last) := (b.lines[..|b.lines| - 1], b.lines[|b.lines| - 1]);
    assert b.lines == front + [last];
    NoNames(front);
    NamesConcat(front, [last]);
    assert Names([last]) == [FileName(last)];
    hide Normalized;
    NoEntryIsNormal(front);
    NormalizedConcat(front, [last]);
    assert AllNormalized([last]) == [last];
  }

  lemma {:induction false} FlatNames(blocks: seq<Block>)
    requires forall b :: b in blocks ==> GoodBlock(b)
    ensures Names(Flat(blocks)) == NamesOf(blocks) && AllNormalized(Flat(blocks)) == Flat(blocks)
  {
    hide GoodBlock, Names, AllNormalized;
    if blocks == [] {
      NothingNormalized();
      NoNames([]);
    } else {
      FlatNames(blocks[1..]);
      GoodBlockNames(blocks[0]);
      NamesConcat(blocks[0].lines, Flat(blocks[1..]));
      NormalizedConcat(blocks[0].lines, Flat(blocks[1..]));
      assert NamesOf(blocks) == [blocks[0].name] + NamesOf(blocks[1..]);
    }
  }

  /** A file is left alone exactly when its entries are spaced as the sorter
      spaces them and their file names are in order. */
  ghost predicate IsSorted(lines: seq<string>) {
    AllNormalized(lines) == lines && NamesOrdered(Names(lines))
  }

  lemma OutputNames(lines: seq<string>)
    requires AfterEntries(lines) > 0
    ensures NamesOrdered(Names(SortedMiddle(lines))) && AllNormalized(SortedMiddle(lines)) == SortedMiddle(lines)
  {
    var blocks := Blocks(Middle(lines), []);
    var sorted := StableSorted(blocks, BlockName);
    BlocksAreGood(Middle(lines), []);
    SortedByKey(blocks, BlockName);
    hide Blocks, StableSorted, Names, AllNormalized, GoodBlock, AtMost, Flat;
    assert forall b :: b in sorted ==> b in blocks;
    FlatNames(sorted);
    var names := NamesOf(sorted);
    forall i, j | 0 <= i < j < |names| ensures AtMost(names[i], names[j]) {
      assert AtMost(BlockName(sorted[i]), BlockName(sorted[j]));
    }
  }

  lemma PartNames(lines: seq<string>)
    requires AfterEntries(lines) > 0
    ensures Names(Top(lines)) == [] && Names(Bottom(lines)) == []
  {
    FirstBeforeLast(lines);
    hide IsEntry, FirstEntry, AfterEntries, AfterBlank, Names;
    NoNames(Top(lines));
    NoNames(Bottom(lines));
  }

  /** Every output is sorted. */
  lemma OutputIsSorted(lines: seq<string>)
    ensures IsSorted(SortedLines(lines))
  {
    if AfterEntries(lines) == 0 {
      hide IsEntry, Normalized, FirstEntry, AfterBlank, AfterEntries, AllNormalized, Names;
      NoEntryIsNormal(lines);
      NoNames(lines);
    } else {
      MiddleEnds(lines);
      OutputNames(lines);
      PartNames(lines);
      var (t, m, b) := (Top(lines), SortedMiddle(lines), Bottom(lines));
      hide SortedMiddle, Top, Bottom, Middle, AllNormalized, AfterEntries, Names, NamesOrdered;
      NormalizedConcat(t, m);
      NormalizedConcat(t + m, b);
      NamesConcat(t, m);
      NamesConcat(t + m, b);
      assert [] + Names(m) + [] == Names(m);
    }
  }

  /** A sorted file comes out as it went in, however its header is split. */
  lemma SortedIsKept(lines: seq<string>)
    requires IsSorted(lines)
    ensures SortedLines(lines) == lines
  {
    if AfterEntries(lines) > 0 {
      MiddleEnds(lines);
      var (t, m, b) := (Top(lines), Middle(lines), Bottom(lines));
      PartNames(lines);
      hide Top, Bottom, Middle, AllNormalized, AfterEntries, Names, Blocks, Leftover;
      NormalizedConcat(t, m);
      NormalizedConcat(t + m, b);
      NamesConcat(t, m);
      NamesConcat(t + m, b);
      SameLength(m);
      assert AllNormalized(m) == m by {
        assert lines == t + m + b && AllNormalized(lines) == t + AllNormalized(m) + b;
        assert (t + m + b)[|t|..|t| + |m|] == m && (t + AllNormalized(m) + b)[|t|..|t| + |m|] == AllNormalized(m);
      }
      assert Names(m) == Names(lines);
      MiddleIsKept(m);
    }
  }

  lemma MiddleIsKept(m: seq<string>)
    requires AllNormalized(m) == m && NamesOrdered(Names(m)) && Leftover(m, []) == []
    ensures Flat(StableSorted(Blocks(m, []), BlockName)) == m
  {
    var blocks := Blocks(m, []);
    BlockNames(m, []);
    BlocksKeepLines(m, []);
    hide Blocks, Names, AllNormalized, Leftover, AtMost, Flat;
    forall i, j | 0 <= i < j < |blocks| ensures AtMost(BlockName(blocks[i]), BlockName(blocks[j])) {
      assert AtMost(NamesOf(blocks)[i], NamesOf(blocks)[j]);
    }
    SortedAlready(blocks, BlockName);
    assert Flat(blocks) + [] == Flat(blocks) && [] + m == m;
  }

  lemma UnmodifiedIff(lines: seq<string>)
    ensures SortedLines(lines) == lines <==> IsSorted(lines)
  {
    hide SortedLines, IsSorted;
    OutputIsSorted(lines);
    if IsSorted(lines) { SortedIsKept(lines); }
  }

  /** A second run reports no change. */
  lemma SortTwice(lines: seq<string>)
    ensures SortedLines(SortedLines(lines)) == SortedLines(lines)
  {
    hide SortedLines, IsSorted;
    OutputIsSorted(lines);
    SortedIsKept(SortedLines(lines));
  }

  /** Each entry moves with the lines attached to it: the middle part is the
      stable sort, by file name, of the blocks that end in its entries. */
  lemma EntriesMoveWithComments(lines: seq<string>, name: string)
    requires AfterEntries(lines) > 0
    ensures var blocks := Blocks(Middle(lines), []);
            var sorted := StableSorted(blocks, BlockName);
            && SortedLines(lines) == Top(lines) + Flat(sorted) + Bottom(lines)
            && Flat(blocks) == AllNormalized(Middle(lines)) && (forall b :: b in blocks ==> GoodBlock(b))
            && multiset(sorted) == multiset(blocks) && Ordered(sorted, BlockName)
            && OfKey(sorted, BlockName, name) == OfKey(blocks, BlockName, name)
  {
    var blocks := Blocks(Middle(lines), []);
    MiddleEnds(lines);
    BlocksKeepLines(Middle(lines), []);
    BlocksAreGood(Middle(lines), []);
    SortedByKey(blocks, BlockName);
    SortIsStable(blocks, BlockName, name);
    hide Blocks, StableSorted, AllNormalized, Leftover, GoodBlock, Ordered, OfKey, Middle, Top, Bottom, Flat,
         AfterEntries;
    assert Flat(blocks) + [] == Flat(blocks) && [] + AllNormalized(Middle(lines)) == AllNormalized(Middle(lines));
  }
}
