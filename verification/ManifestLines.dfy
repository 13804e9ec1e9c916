/** What the lines of a runtimes manifest are taken for. */
module ManifestLines {
  import opened Text
  import opened ManifestSorter

  ghost predicate AllBlank(s: string) {
    forall i :: 0 <= i < |s| ==> IsSpace(s[i])
  }

  /** The first character that is not blank. */
  ghost predicate IsFirstInk(s: string, i: nat) {
    i < |s| && !IsSpace(s[i]) && AllBlank(s[..i])
  }

  lemma {:induction false} LStripOf(lead: string, s: string)
    requires AllBlank(lead) && (s == "" || !IsSpace(s[0]))
    ensures LStrip(lead + s) == s
  {
    if lead == "" {
      assert lead + s == s;
    } else {
      assert (lead + s)[1..] == lead[1..] + s;
      LStripOf(lead[1..], s);
    }
  }

  lemma {:induction false} RStripOf(s: string, trail: string)
    requires AllBlank(trail) && (s == "" || !IsSpace(s[|s| - 1]))
    ensures RStrip(s + trail) == s
    decreases |trail|
  {
    if trail == "" {
      assert s + trail == s;
    } else {
      var whole := s + trail;
      assert whole[..|whole| - 1] == s + trail[..|trail| - 1];
      RStripOf(s, trail[..|trail| - 1]);
    }
  }

  lemma StripOf(lead: string, s: string, trail: string)
    requires AllBlank(lead) && AllBlank(trail) && Trimmed(s)
    ensures Strip(lead + s + trail) == s
  {
    if s == "" {
      LStripOf(lead + trail, "");
      assert lead + s + trail == lead + trail + "";
    } else {
      assert lead + s + trail == lead + (s + trail);
      LStripOf(lead, s + trail);
      RStripOf(s, trail);
    }
  }

  /** A text between the blanks around it. */
  lemma StripParts(s: string) returns (lead: string, trail: string)
    ensures AllBlank(lead) && AllBlank(trail) && s == lead + Strip(s) + trail && Trimmed(Strip(s))
  {
    StripTrims(s);
    var l := LStrip(s);
    lead := BlankLead(s);
    trail := BlankTrail(l);
    assert s == lead + (Strip(s) + trail);
  }

  lemma {:induction false} BlankLead(s: string) returns (lead: string)
    ensures AllBlank(lead) && s == lead + LStrip(s)
  {
    if s != "" && IsSpace(s[0]) {
      var rest := BlankLead(s[1..]);
      lead := [s[0]] + rest;
    } else {
      lead := "";
    }
  }

  lemma {:induction false} BlankTrail(s: string) returns (trail: string)
    ensures AllBlank(trail) && s == RStrip(s) + trail
  {
    if s != "" && IsSpace(s[|s| - 1]) {
      var rest := BlankTrail(s[..|s| - 1]);
      trail := rest + [s[|s| - 1]];
      assert s == s[..|s| - 1] + [s[|s| - 1]];
      assert RStrip(s) + rest + [s[|s| - 1]] == RStrip(s) + trail;
    } else {
      trail := "";
    }
  }

  lemma OneFirstInk(s: string, i: nat, j: nat)
    requires IsFirstInk(s, i) && IsFirstInk(s, j)
    ensures i == j
  {
    assert forall k :: 0 <= k < i ==> s[..i][k] == s[k];
    assert forall k :: 0 <= k < j ==> s[..j][k] == s[k];
  }

  /** A line is blank when all its characters are, and an entry when the first that
      is not is no `#`. */
  lemma LineKinds(line: string)
    ensures IsBlank(line) <==> AllBlank(line)
    ensures IsEntry(line) <==> exists i: nat :: IsFirstInk(line, i) && line[i] != '#'
  {
    var lead, trail := StripParts(line);
    var s := Strip(line);
    if s == "" {
      forall i | 0 <= i < |line| ensures IsSpace(line[i]) {
        assert line == lead + trail;
      }
    } else {
      assert line[|lead|] == s[0] && line[..|lead|] == lead;
      assert IsFirstInk(line, |lead|);
      forall i: nat | IsFirstInk(line, i) ensures i == |lead| { OneFirstInk(line, i, |lead|); }
    }
  }

  lemma {:induction false} GapSkipped(gap: string, s: string)
    requires forall i :: 0 <= i < |gap| ==> gap[i] == ' '
    ensures Words(gap + s) == Words(s)
  {
    if gap == "" {
      assert gap + s == s;
    } else {
      assert (gap + s)[1..] == gap[1..] + s;
      GapSkipped(gap[1..], s);
    }
  }

  ghost predicate IsWordOf(w: string) {
    w != "" && forall i :: 0 <= i < |w| ==> !IsSpace(w[i])
  }

  /** Of two words the second is the file name, and two blanks go between them. */
  lemma TwoWordLine(lead: string, a: string, gap: string, b: string, trail: string)
    requires AllBlank(lead) && AllBlank(trail) && IsWordOf(a) && IsWordOf(b) && a[0] != '#'
    requires gap != "" && forall i :: 0 <= i < |gap| ==> gap[i] == ' '
    ensures var line := lead + (a + gap + b) + trail;
            IsEntry(line) && FileName(line) == b && Normalized(line) == a + "  " + b
  {
    var s := a + gap + b;
    assert Trimmed(s) && s[0] == a[0];
    StripOf(lead, s, trail);
    assert s == a + (gap + b);
    WordOf(a, gap + b);
    GapSkipped(gap, b);
    WordOf(b, "");
    assert b + "" == b && Words("") == [];
  }

  /** Any other entry is named by its first word and left as it is. */
  lemma OtherLine(lead: string, a: string, rest: string, trail: string)
    requires AllBlank(lead) && AllBlank(trail) && IsWordOf(a) && a[0] != '#' && Trimmed(a + rest)
    requires (rest == "" || rest[0] == ' ') && |Words(rest)| != 1
    ensures var line := lead + (a + rest) + trail;
            IsEntry(line) && FileName(line) == a && Normalized(line) == line
  {
    var s := a + rest;
    assert s[0] == a[0];
    StripOf(lead, s, trail);
    WordOf(a, rest);
  }

  /** The header reaches to the last blank line before the first entry. */
  lemma HeaderIs(lines: seq<string>)
    ensures var n := HeaderEnd(lines);
            && (n > 0 ==> AllBlank(lines[n - 1]))
            && forall k :: n <= k < FirstEntry(lines) ==> !AllBlank(lines[k])
  {
    var pre := lines[..FirstEntry(lines)];
    AfterBlankIs(pre);
    hide IsBlank, AllBlank, AfterBlank, FirstEntry;
    forall k | 0 <= k < |pre| ensures IsBlank(lines[k]) <==> AllBlank(lines[k]) { LineKinds(lines[k]); }
    assert forall k :: 0 <= k < |pre| ==> pre[k] == lines[k];
  }

  lemma {:induction false} AfterBlankIs(lines: seq<string>)
    ensures var n := AfterBlank(lines);
            && (n > 0 ==> IsBlank(lines[n - 1])) && forall k :: n <= k < |lines| ==> !IsBlank(lines[k])
  {
    hide IsBlank;
    if lines != [] && !IsBlank(lines[|lines| - 1]) { AfterBlankIs(lines[..|lines| - 1]); }
  }
}
