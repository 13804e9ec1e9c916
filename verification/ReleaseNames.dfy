/** Version, branch and tag names never collide. */
module ReleaseNames {
  import opened Text
  import opened Decimal
  import opened Sorting
  import opened Checklist
  import opened IssueBody
  import opened GitGraph
  import opened ReleaseSteps

  /** Text before the first `c` is determined by the whole. */
  lemma SplitUnique(a: string, c: char, x: string, b: string, y: string)
    requires c !in a && c !in b && a + [c] + x == b + [c] + y
    ensures a == b && x == y
  {
    var s := a + [c] + x;
    IndexOfIs(s, c, |a|);
    assert s == b + [c] + y;
    IndexOfIs(b + [c] + y, c, |b|);
    assert a == s[..|a|] && b == (b + [c] + y)[..|b|];
    assert x == s[|a| + 1..] && y == (b + [c] + y)[|b| + 1..];
  }

  lemma NumeralHasNo(s: string, c: char)
    requires IsNumeral(s) && !IsDigit(c)
    ensures c !in s
  {
  }

  lemma VersionTextInjective(u: Version, v: Version)
    requires ValidVersion(u) && ValidVersion(v) && VersionText(u) == VersionText(v)
    ensures u == v
  {
    NumeralHasNo(u.major, '.');
    NumeralHasNo(v.major, '.');
    NumeralHasNo(u.minor, '.');
    NumeralHasNo(v.minor, '.');
    hide IsNumeral;
    assert VersionText(u) == u.major + ['.'] + (u.minor + ['.'] + u.patch);
    assert VersionText(v) == v.major + ['.'] + (v.minor + ['.'] + v.patch);
    SplitUnique(u.major, '.', u.minor + ['.'] + u.patch, v.major, v.minor + ['.'] + v.patch);
    SplitUnique(u.minor, '.', u.patch, v.minor, v.patch);
  }

  lemma NoDashInVersion(v: Version)
    requires ValidVersion(v)
    ensures '-' !in VersionText(v)
  {
    NumeralHasNo(v.major, '-');
    NumeralHasNo(v.minor, '-');
    assert forall i :: 0 <= i < |v.patch| ==> v.patch[i] != '-';
  }

  lemma RcTagIsRc(v: Version, n: nat)
    ensures IsRcTag(v, RcTag(v, n)) && RcNumber(v, RcTag(v, n)) == n
  {
    var prefix := VersionText(v) + "-rc";
    assert RcTag(v, n) == prefix + FromNat(n);
    assert RcTag(v, n)[|prefix|..] == FromNat(n);
    Decimal.RoundTrip(n);
  }

  /** A candidate tag names one version and one number. */
  lemma RcTagUnique(u: Version, v: Version, n: nat)
    requires ValidVersion(u) && ValidVersion(v) && IsRcTag(u, RcTag(v, n))
    ensures u == v && RcNumber(u, RcTag(v, n)) == n
  {
    var tag := RcTag(v, n);
    var x := tag[|VersionText(u)| + 1..];
    NoDashInVersion(u);
    NoDashInVersion(v);
    assert tag[|VersionText(u)|] == (VersionText(u) + "-rc")[|VersionText(u)|] == '-';
    assert tag[..|VersionText(u)|] == VersionText(u);
    assert tag == VersionText(u) + ['-'] + x;
    assert tag == VersionText(v) + ['-'] + ("rc" + FromNat(n));
    hide VersionText, ValidVersion;
    SplitUnique(VersionText(u), '-', x, VersionText(v), "rc" + FromNat(n));
    VersionTextInjective(u, v);
    RcTagIsRc(v, n);
  }

  lemma FinalIsNotRc(u: Version, v: Version)
    requires ValidVersion(u) && ValidVersion(v)
    ensures !IsRcTag(u, VersionText(v))
  {
    NoDashInVersion(v);
    var prefix := VersionText(u) + "-rc";
    assert prefix[|VersionText(u)|] == '-' && '-' in prefix;
  }

  /** `endswith(".0")` on the text is the patch component being `0`. */
  lemma FirstReleasePatch(v: Version)
    requires ValidVersion(v)
    ensures IsFirstRelease(v) <==> v.patch == "0"
  {
    var s := VersionText(v);
    assert s == v.major + "." + v.minor + ['.'] + v.patch;
    assert s[|s| - |v.patch|..] == v.patch;
    assert forall i :: 0 <= i < |v.patch| ==> v.patch[i] != '.';
    assert |v.patch| >= 2 ==> s[|s| - 2] == v.patch[|v.patch| - 2];
    assert s[|s| - 2..] == [s[|s| - 2], s[|s| - 1]] && s[|s| - 1] == v.patch[|v.patch| - 1];
    assert ".0" == ['.', '0'];
  }

  lemma {:induction false} LatestIsHighest(v: Version, listed: seq<string>, tag: string)
    requires tag in listed && IsRcTag(v, tag)
    ensures LatestOf(v, listed).Some? && RcNumber(v, tag) <= RcNumber(v, LatestOf(v, listed).value)
  {
    hide IsRcTag, RcNumber;
    if tag in listed[..|listed| - 1] { LatestIsHighest(v, listed[..|listed| - 1], tag); }
  }

  /** Every candidate's number is below the next one's. */
  lemma NextRcIsAbove(v: Version, tags: map<string, Commit>, tag: string)
    requires tag in tags && IsRcTag(v, tag)
    ensures RcNumber(v, tag) < NextRc(v, tags)
    ensures LatestRcTag(v, tags).Some?
  {
    LatestIsHighest(v, Sorted(tags.Keys), tag);
  }

  /** The next number is the least above those of all candidates. */
  lemma NextRcIs(v: Version, tags: map<string, Commit>, n: nat)
    ensures NextRc(v, tags) == n <==>
              && (forall tag :: tag in tags && IsRcTag(v, tag) ==> RcNumber(v, tag) < n)
              && (n == 0 || exists tag :: tag in tags && IsRcTag(v, tag) && RcNumber(v, tag) == n - 1)
  {
    hide IsRcTag, RcNumber, LatestOf;
    forall tag | tag in tags && IsRcTag(v, tag) ensures RcNumber(v, tag) < NextRc(v, tags) {
      NextRcIsAbove(v, tags, tag);
    }
    var latest := LatestRcTag(v, tags);
    if latest.Some? { assert latest.value in tags; }
  }

  lemma {:induction false} TitleVersionIsValid(title: string)
    ensures VersionInTitle(title).Some? ==> ValidVersion(VersionInTitle(title).value)
  {
    hide ValidVersion, VersionAt;
    if |title| >= 8 {
      if Lower(title[..8]) == "release " && VersionAt(title[8..]).Some? {
        VersionAtIsValid(title[8..]);
      } else {
        TitleVersionIsValid(title[1..]);
      }
    }
  }

  lemma VersionAtIsValid(s: string)
    ensures VersionAt(s).Some? ==> ValidVersion(VersionAt(s).value)
  {
  }

  /** A title that names a version is read as that version, whatever follows it. */
  lemma TitleIsRead(v: Version, rest: string)
    requires IsNumeral(v.major) && IsNumeral(v.minor) && IsNumeral(v.patch) && (rest == "" || !IsDigit(rest[0]))
    ensures VersionInTitle("Release " + (v.major + "." + v.minor + "." + v.patch) + rest) == Some(v)
  {
    var text := v.major + "." + v.minor + "." + v.patch;
    var title := "Release " + text + rest;
    assert title[..8] == "Release " && Lower("Release ") == "release ";
    assert title[8..] == v.major + ("." + (v.minor + ("." + (v.patch + rest))));
    hide Lower, VersionAt;
    VersionIsRead(v, rest);
  }

  lemma VersionIsRead(v: Version, rest: string)
    requires IsNumeral(v.major) && IsNumeral(v.minor) && IsNumeral(v.patch) && (rest == "" || !IsDigit(rest[0]))
    ensures VersionAt(v.major + ("." + (v.minor + ("." + (v.patch + rest))))) == Some(v)
  {
    var u := v.patch + rest;
    var t := v.minor + ("." + u);
    var s := v.major + ("." + t);
    DigitRunAll(v.patch, rest);
    DigitRunAll(v.minor, "." + u);
    DigitRunAll(v.major, "." + t);
    hide DigitRun;
    assert s[..|v.major|] == v.major && s[|v.major|] == '.' && s[|v.major| + 1..] == t;
    assert t[..|v.minor|] == v.minor && t[|v.minor|] == '.' && t[|v.minor| + 1..] == u;
    assert u[..|v.patch|] == v.patch;
  }
}
