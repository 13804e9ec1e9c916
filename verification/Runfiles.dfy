/** Runfiles manifests: reading the escaped lines, and looking paths up by their
    longest listed directory. */
module Runfiles {
  import opened Text

  // ---------------------------------------------------------------- escapes

  /** `s.replace(a + b, c)` for two characters. */
  function Replace(s: string, a: char, b: char, c: char): string {
    if |s| < 2 then s
    else if s[0] == a && s[1] == b then [c] + Replace(s[2..], a, b, c)
    else [s[0]] + Replace(s[1..], a, b, c)
  }

  function UnescapeTarget(s: string): string {
    Replace(Replace(s, '\\', 'n', '\n'), '\\', 'b', '\\')
  }

  function UnescapeLink(s: string): string {
    UnescapeTarget(Replace(s, '\\', 's', ' '))
  }

  /** The character that an escape stands for. */
  function Escaped(c: char, spaces: bool): Option<char> {
    if c == 's' && spaces then Some(' ') else if c == 'n' then Some('\n') else if c == 'b' then Some('\\') else None
  }

  /** Reading escapes in one pass from the left. */
  function Decode(s: string, spaces: bool): string {
    if s == "" then ""
    else if |s| >= 2 && s[0] == '\\' && Escaped(s[1], spaces).Some?
        then [Escaped(s[1], spaces).value] + Decode(s[2..], spaces)
    else [s[0]] + Decode(s[1..], spaces)
  }

  lemma ReplaceStep(c: char, s: string, b: char, to: char)
    ensures Replace([c] + s, '\\', b, to) ==
            if c == '\\' && s != "" && s[0] == b then [to] + Replace(s[1..], '\\', b, to)
                else [c] + Replace(s, '\\', b, to)
  {
    assert ([c] + s)[1..] == s;
    if s != "" { assert ([c] + s)[2..] == s[1..]; }
  }

  /** Replacing keeps a first character that starts no escape. */
  lemma ReplaceHead(s: string, b: char, to: char)
    requires s != ""
    ensures var r := Replace(s, '\\', b, to);
            r != "" && r[0] == (if |s| >= 2 && s[0] == '\\' && s[1] == b then to else s[0])
  {
  }

  /** Replacing newlines, then backslashes, is the one-pass reading. */
  lemma {:induction false} TargetOnePass(s: string)
    ensures UnescapeTarget(s) == Decode(s, false)
  {
    if |s| >= 2 {
      var t := s[1..];
      assert s == [s[0]] + t;
      ReplaceStep(s[0], t, 'n', '\n');
      TargetOnePass(t);
      ReplaceHead(t, 'n', '\n');
      if s[0] == '\\' && t[0] == 'n' {
        TargetOnePass(s[2..]);
        ReplaceStep('\n', Replace(t[1..], '\\', 'n', '\n'), 'b', '\\');
        assert t[1..] == s[2..];
      } else {
        ReplaceStep(s[0], Replace(t, '\\', 'n', '\n'), 'b', '\\');
        if s[0] == '\\' && t[0] == 'b' {
          TargetOnePass(s[2..]);
          assert t == ['b'] + s[2..];
          ReplaceStep('b', s[2..], 'n', '\n');
          assert (['b'] + Replace(s[2..], '\\', 'n', '\n'))[1..] == Replace(s[2..], '\\', 'n', '\n');
        }
      }
    }
  }

  /** Reading out spaces first does not disturb the other escapes. */
  lemma {:induction false} SpacesFirst(s: string)
    ensures Decode(Replace(s, '\\', 's', ' '), false) == Decode(s, true)
  {
    if |s| >= 2 {
      var t := s[1..];
      var r := Replace(t, '\\', 's', ' ');
      assert s == [s[0]] + t;
      ReplaceStep(s[0], t, 's', ' ');
      ReplaceHead(t, 's', ' ');
      if s[0] == '\\' && t[0] == 's' {
        SpacesFirst(s[2..]);
        assert t[1..] == s[2..];
        assert ([' '] + Replace(s[2..], '\\', 's', ' '))[1..] == Replace(s[2..], '\\', 's', ' ');
      } else if s[0] == '\\' && Escaped(t[0], false).Some? {
        SpacesFirst(s[2..]);
        assert t == [t[0]] + s[2..];
        ReplaceStep(t[0], s[2..], 's', ' ');
        assert ([s[0]] + ([t[0]] + Replace(s[2..], '\\', 's', ' ')))[2..] == Replace(s[2..], '\\', 's', ' ');
      } else {
        SpacesFirst(t);
        assert ([s[0]] + r)[1..] == r;
      }
    }
  }

  /** The three replacements in sequence are one pass over the string, for every
      string: no replacement makes up a new escape. */
  lemma LinkOnePass(s: string)
    ensures UnescapeLink(s) == Decode(s, true)
  {
    TargetOnePass(Replace(s, '\\', 's', ' '));
    SpacesFirst(s);
  }

  function EscapeChar(c: char, spaces: bool): string {
    if c == ' ' && spaces then "\\s" else if c == '\n' then "\\n" else if c == '\\' then "\\b" else [c]
  }

  /** How the manifest writer escapes a link, and without spaces a target. */
  function Escape(s: string, spaces: bool): string {
    if s == "" then "" else EscapeChar(s[0], spaces) + Escape(s[1..], spaces)
  }

  lemma DecodeStep(c: char, rest: string, spaces: bool)
    ensures Decode(EscapeChar(c, spaces) + rest, spaces) == [c] + Decode(rest, spaces)
  {
    var e := EscapeChar(c, spaces);
    assert "\\s" == ['\\', 's'] && "\\n" == ['\\', 'n'] && "\\b" == ['\\', 'b'];
    assert |e| == 2 ==> (e + rest)[2..] == rest && (e + rest)[0] == '\\' && (e + rest)[1] == e[1];
    assert |e| == 1 ==> (e + rest)[1..] == rest && (e + rest)[0] == c;
  }

  lemma {:induction false} EscapeRoundTrip(s: string, spaces: bool)
    ensures Decode(Escape(s, spaces), spaces) == s
  {
    hide Decode, EscapeChar;
    if s == "" {
      DecodeNothing(spaces);
    } else {
      EscapeRoundTrip(s[1..], spaces);
      DecodeStep(s[0], Escape(s[1..], spaces), spaces);
    }
  }

  lemma DecodeNothing(spaces: bool)
    ensures Decode("", spaces) == ""
  {
  }

  lemma {:induction false} EscapedIsClean(s: string, spaces: bool)
    ensures '\n' !in Escape(s, spaces) && (spaces ==> ' ' !in Escape(s, spaces))
    ensures s != "" ==> Escape(s, spaces) != ""
  {
    if s != "" {
      EscapedIsClean(s[1..], spaces);
      assert forall c :: c in "\\s" || c in "\\n" || c in "\\b" ==> c != '\n' && c != ' ';
    }
  }

  // --------------------------------------------------------------- manifests

  datatype Link = Link(path: string, target: string)

  /** `line.split(" ", maxsplit=1)`; None is the unpacking error. */
  function SplitOnce(s: string): Option<(string, string)> {
    var i := IndexOf(s, ' ');
    if i == |s| then None else Some((s[..i], s[i + 1..]))
  }

  /** One line of the manifest. */
  function LoadLine(line: string): Option<Link> {
    if StartsWith(line, " ") then
      match SplitOnce(line[1..])
      case None => None
      case Some((link, target)) => Some(Link(UnescapeLink(link), UnescapeTarget(target)))
    else match SplitOnce(line)
      case None => None
      case Some((link, target)) => Some(Link(link, target))
  }

  function Resolved(l: Link): string {
    if l.target != "" then l.target else l.path
  }

  function Load(lines: seq<string>): Option<map<string, string>> {
    if lines == [] then Some(map[])
    else match Load(lines[..|lines| - 1])
      case None => None
      case Some(m) =>
        match LoadLine(lines[|lines| - 1])
        case None => None
        case Some(l) => Some(m[l.path := Resolved(l)])
  }

  method LoadRunfiles(lines: seq<string>) returns (result: Option<map<string, string>>)
    ensures result == Load(lines)
  {
    hide LoadLine;
    var m: map<string, string> := map[];
    for i := 0 to |lines|
      invariant Load(lines[..i]) == Some(m)
    {
      assert lines[..i + 1][..i] == lines[..i];
      var l := LoadLine(lines[i]);
      if l.None? {
        LoadStuck(lines, i + 1);
        return None;
      }
      m := m[l.value.path := Resolved(l.value)];
    }
    assert lines[..|lines|] == lines;
    result := Some(m);
  }

  lemma {:induction false} LoadStuck(lines: seq<string>, k: nat)
    requires k <= |lines| && Load(lines[..k]) == None
    ensures Load(lines) == None
    decreases |lines|
  {
    hide LoadLine;
    if k == |lines| {
      assert lines[..k] == lines;
    } else {
      assert lines[..|lines| - 1][..k] == lines[..k];
      LoadStuck(lines[..|lines| - 1], k);
    }
  }

  predicate NeedsEscape(l: Link) {
    ' ' in l.path || '\n' in l.path || '\\' in l.path || '\n' in l.target || '\\' in l.target
  }

  /** A line of the format: escaped ones start with a space. */
  function PrintLine(l: Link): string {
    if NeedsEscape(l) then " " + Escape(l.path, true) + " " + Escape(l.target, false) else l.path + " " + l.target
  }

  function Print(links: seq<Link>): seq<string> {
    seq(|links|, i requires 0 <= i < |links| => PrintLine(links[i]))
  }

  lemma SplitAt(a: string, b: string)
    requires ' ' !in a
    ensures SplitOnce(a + " " + b) == Some((a, b))
  {
    var s := a + " " + b;
    IndexOfIs(s, ' ', |a|);
    assert s[..|a|] == a && s[|a| + 1..] == b;
  }

  /** A printed line stays one line and is read back as it was. */
  lemma LineRoundTrip(l: Link)
    requires l.path != ""
    ensures LoadLine(PrintLine(l)) == Some(l) && '\n' !in PrintLine(l)
  {
    hide SplitOnce, UnescapeLink, UnescapeTarget;
    if NeedsEscape(l) {
      hide Escape, NeedsEscape;
      var (e, t) := (Escape(l.path, true), Escape(l.target, false));
      EscapedIsClean(l.path, true);
      EscapedIsClean(l.target, false);
      UnescapesBoth(l);
      EscapedLine(e, t);
    } else {
      SplitAt(l.path, l.target);
      assert PrintLine(l)[0] == l.path[0];
    }
  }

  lemma UnescapesBoth(l: Link)
    ensures UnescapeLink(Escape(l.path, true)) == l.path && UnescapeTarget(Escape(l.target, false)) == l.target
  {
    EscapeRoundTrip(l.path, true);
    EscapeRoundTrip(l.target, false);
    LinkOnePass(Escape(l.path, true));
    TargetOnePass(Escape(l.target, false));
    hide *;
  }

  lemma EscapedLine(e: string, t: string)
    requires ' ' !in e
    ensures LoadLine(" " + e + " " + t) == Some(Link(UnescapeLink(e), UnescapeTarget(t)))
  {
    hide SplitOnce, UnescapeLink, UnescapeTarget;
    assert (" " + e + " " + t)[1..] == e + " " + t;
    SplitAt(e, t);
  }

  function AsMap(links: seq<Link>): map<string, string> {
    if links == [] then map[] else AsMap(links[..|links| - 1])[links[|links| - 1].path := Resolved(links[|links| - 1])]
  }

  /** Printing a manifest in any order and loading it gives its links, an empty
      target standing for the link itself. */
  lemma {:induction false} ManifestRoundTrip(links: seq<Link>)
    requires forall i :: 0 <= i < |links| ==> links[i].path != ""
    ensures Load(Print(links)) == Some(AsMap(links))
  {
    hide LoadLine, PrintLine;
    if links != [] {
      var front := links[..|links| - 1];
      ManifestRoundTrip(front);
      assert Print(links)[..|links| - 1] == Print(front);
      LineRoundTrip(links[|links| - 1]);
    }
  }

  // ------------------------------------------------------------------ lookup

  type Manifest = map<string, string>

  predicate Lists(m: Manifest, p: string) {
    p in m && m[p] != ""
  }

  /** `path.rfind("/", 0, end)`, where a negative end counts from the back. */
  function RFind(path: string, end: int): (i: int)
    ensures -1 <= i < |path|
    ensures i >= 0 ==> path[i] == '/'
  {
    var e := if end < 0 then (if |path| + end < 0 then 0 else |path| + end) else if end <= |path| then end else |path|;
    LastIndexOf(path[..e], '/')
  }

  /** The path with its repository-relative directory `path[..p]` replaced. */
  function Under(m: Manifest, path: string, p: nat): string
    requires p < |path| && path[..p] in m
  {
    m[path[..p]] + "/" + path[p + 1..]
  }

  /** A directory of the path that the manifest lists. */
  predicate Listed(m: Manifest, path: string, p: int) {
    0 <= p < |path| - 1 && path[p] == '/' && Lists(m, path[..p])
  }

  ghost predicate IsNormal(path: string) {
    forall i :: 0 <= i < |path| - 1 ==> path[i] != '/' || path[i + 1] != '/'
  }

  /** What a lookup gives: the exact entry, else the longest listed directory
      with the rest appended, else nothing. */
  ghost predicate IsLocation(m: Manifest, path: string, r: Option<string>) {
    if Lists(m, path) then r == Some(m[path])
    else if p :| Listed(m, path, p) && forall q :: Listed(m, path, q) ==> q <= p then r == Some(Under(m, path, p))
    else r == None && forall q :: !Listed(m, path, q)
  }

  class ManifestBased {
    const runfiles: Manifest

    constructor (runfiles: Manifest)
      ensures this.runfiles == runfiles
    {
      this.runfiles := runfiles;
    }

    /** `RlocationChecked`. Its callers never pass a leading slash: with one, the
        search bound becomes negative and the loop need not end. */
    method RlocationChecked(path: string) returns (r: Option<string>)
      requires !StartsWith(path, "/") && IsNormal(path)
      ensures IsLocation(runfiles, path, r)
    {
      hide LastIndexOf;
      if Lists(runfiles, path) { return Some(runfiles[path]); }
      var prefixEnd: int := |path|;
      while true
        invariant prefixEnd == |path| || (0 < prefixEnd < |path| - 1 && path[prefixEnd] == '/')
        invariant forall q :: Listed(runfiles, path, q) ==> q < prefixEnd
        decreases prefixEnd
      {
        ghost var last := prefixEnd;
        prefixEnd := RFind(path, prefixEnd - 1);
        RFindBefore(path, last);
        if prefixEnd == -1 { return None; }
        if Lists(runfiles, path[..prefixEnd]) {
          assert Listed(runfiles, path, prefixEnd);
          return Some(Under(runfiles, path, prefixEnd));
        }
      }
    }
  }

  /** From a slash, or from the end, the next search finds the nearest slash of
      a normal path before it. */
  lemma RFindBefore(path: string, last: int)
    requires !StartsWith(path, "/") && IsNormal(path)
    requires last == |path| || (0 < last < |path| - 1 && path[last] == '/')
    ensures var p := RFind(path, last - 1);
            && p < last && (p >= 0 ==> 0 < p < |path| - 1 && path[p] == '/')
            && forall q :: 0 <= q < last && q < |path| - 1 && path[q] == '/' ==> q <= p
  {
    if path != "" {
      var e := if last - 1 < 0 then 0 else last - 1;
      var p := RFind(path, last - 1);
      assert p == LastIndexOf(path[..e], '/');
      forall q | 0 <= q < last && q < |path| - 1 && path[q] == '/' ensures q <= p {
        if q < e { assert path[..e][q] == '/'; }
      }
    }
  }

  /** The search position after `n` turns of the loop, nothing being listed. */
  function Position(path: string, n: nat): (p: int)
    ensures -1 <= p <= |path|
  {
    if n == 0 then |path|
    else if Position(path, n - 1) == -1 then -1
    else RFind(path, Position(path, n - 1) - 1)
  }

  lemma {:induction false} LeadingSlashStays(path: string, n: nat)
    requires IsNormal(path) && |path| >= 2 && path[0] == '/'
    ensures Position(path, n) >= 0 && Position(path, n) != 1
  {
    if n > 0 {
      LeadingSlashStays(path, n - 1);
      var p := Position(path, n - 1) - 1;
      var e := if p < 0 then |path| - 1 else p;
      assert path[..e][0] == '/';
      assert path[1] != '/';
    }
  }

  lemma {:induction false} OtherwiseFalls(path: string, n: nat)
    requires IsNormal(path) && !(|path| >= 2 && path[0] == '/')
    ensures Position(path, n) == -1
            || (Position(path, n) <= |path| - n && (Position(path, n) == |path| || 0 < Position(path, n) < |path| - 1))
    ensures Position(path, n) != -1 ==> Position(path, n) == |path| || path[Position(path, n)] == '/'
  {
    if n > 0 {
      OtherwiseFalls(path, n - 1);
      if Position(path, n - 1) != -1 && path != "/" { RFindBefore(path, Position(path, n - 1)); }
    }
  }

  /** With nothing listed the loop ends for a normal path exactly when the path
      has no leading slash, the lone `/` aside. */
  lemma EndsIffNoLeadingSlash(path: string)
    requires IsNormal(path)
    ensures (exists n :: Position(path, n) == -1) <==> !(|path| >= 2 && path[0] == '/')
  {
    if |path| >= 2 && path[0] == '/' {
      forall n ensures Position(path, n) != -1 { LeadingSlashStays(path, n); }
    } else {
      OtherwiseFalls(path, |path| + 1);
      assert Position(path, |path| + 1) == -1;
    }
  }

  /** The loop stops at its `n`-th search: nothing left, or a listed prefix. */
  predicate Stops(m: Manifest, path: string, n: nat) {
    var p := Position(path, n);
    p == -1 || (n > 0 && Lists(m, path[..p]))
  }

  lemma VisitedIsSlash(path: string, n: nat)
    requires n > 0 && Position(path, n) >= 0
    ensures 0 <= Position(path, n) < |path| - 1 && path[Position(path, n)] == '/'
  {
  }

  /** From above a slash the search comes down to it. */
  lemma {:induction false} SlashIsVisited(path: string, n: nat, p: nat) returns (k: nat)
    requires IsNormal(path) && p < |path| - 1 && path[p] == '/'
    requires Position(path, n) > p && (n == 0 || path[Position(path, n)..][..1] == "/")
    ensures k > 0 && Position(path, k) == p
    decreases Position(path, n)
  {
    var c := Position(path, n);
    if n > 0 { VisitedIsSlash(path, n); }
    assert path[..c - 1][p] == '/' by { assert c == |path| || path[c] == '/'; }
    var next := Position(path, n + 1);
    assert next == LastIndexOf(path[..c - 1], '/') && p <= next < c;
    if next == p {
      k := n + 1;
    } else {
      VisitedIsSlash(path, n + 1);
      k := SlashIsVisited(path, n + 1, p);
    }
  }

  /** For every manifest and every path without `//` the lookup ends exactly when
      the path has no leading slash, the lone `/` aside, or it or some directory of
      it is listed. */
  lemma LookupEndsIff(m: Manifest, path: string)
    requires IsNormal(path)
    ensures Lists(m, path) || (exists n :: Stops(m, path, n)) <==>
              !(|path| >= 2 && path[0] == '/') || Lists(m, path) || exists p :: Listed(m, path, p)
  {
    EndsIffNoLeadingSlash(path);
    hide Position, IsNormal;
    if n :| Position(path, n) == -1 { assert Stops(m, path, n); }
    if n :| Stops(m, path, n) {
      if Position(path, n) != -1 {
        VisitedIsSlash(path, n);
        assert Listed(m, path, Position(path, n));
      } else {
        assert exists k :: Position(path, k) == -1;
      }
    }
    if p :| Listed(m, path, p) {
      assert Position(path, 0) == |path| by { FirstPosition(path); }
      var k := SlashIsVisited(path, 0, p);
      assert Stops(m, path, k);
    }
  }

  lemma FirstPosition(path: string)
    ensures Position(path, 0) == |path|
  {
  }

  // --------------------------------------------------------------- Rlocation

  datatype Prefixed = Prefixed(source: string, apparent: string, canonical: string)

  datatype RepoMapping = RepoMapping(exact: map<(string, string), string>, prefixed: seq<Prefixed>)

  function FirstPrefix(ps: seq<Prefixed>, source: string, apparent: string): Option<string> {
    if ps == [] then None
    else if ps[0].apparent == apparent && StartsWith(source, ps[0].source) then Some(ps[0].canonical)
    else FirstPrefix(ps[1..], source, apparent)
  }

  /** `_RepositoryMapping.lookup`: exact entries win, then prefixes in order. */
  function LookupRepo(mapping: RepoMapping, source: Option<string>, apparent: string): Option<string> {
    if source.None? then None
    else if (source.value, apparent) in mapping.exact then Some(mapping.exact[(source.value, apparent)])
    else FirstPrefix(mapping.prefixed, source.value, apparent)
  }

  /** Canonical names are not empty and start with no slash or contain any. */
  ghost predicate GoodMapping(mapping: RepoMapping) {
    && (forall k :: k in mapping.exact ==> GoodName(mapping.exact[k]))
    && forall p :: p in mapping.prefixed ==> GoodName(p.canonical)
  }

  predicate GoodName(name: string) {
    name != "" && '/' !in name
  }

  lemma {:induction false} FoundNameIsGood(ps: seq<Prefixed>, source: string, apparent: string)
    requires forall p :: p in ps ==> GoodName(p.canonical)
    ensures FirstPrefix(ps, source, apparent).Some? ==> GoodName(FirstPrefix(ps, source, apparent).value)
  {
    if ps != [] { FoundNameIsGood(ps[1..], source, apparent); }
  }

  datatype Answer = ValueError | Answer(location: Option<string>)

  predicate Refused(path: string) {
    || path == "" || StartsWith(path, "../") || Contains(path, "/..") || StartsWith(path, "./") || Contains(path, "/./")
    || EndsWith(path, "/.") || Contains(path, "//") || path[0] == '\\'
  }

  /** The path that is looked up: its repository replaced by the canonical one,
      where the mapping has it and something follows it. */
  function Canonical(mapping: RepoMapping, source: Option<string>, path: string): string {
    var i := IndexOf(path, '/');
    var canonical := LookupRepo(mapping, source, path[..i]);
    if i + 1 >= |path| || canonical.None? then path else canonical.value + "/" + path[i + 1..]
  }

  lemma NotRefused(path: string)
    requires !Refused(path) && !StartsWith(path, "/")
    ensures IsNormal(path)
  {
    forall i | 0 <= i < |path| - 1 ensures path[i] != '/' || path[i + 1] != '/' {
      assert !("//" <= path[i..]);
      assert path[i..][0] == path[i] && path[i..][1] == path[i + 1];
    }
  }

  /** The guards and good names keep the lookup's own precondition. */
  lemma CanonicalIsNormal(mapping: RepoMapping, source: Option<string>, path: string)
    requires !Refused(path) && !StartsWith(path, "/") && GoodMapping(mapping)
    ensures !StartsWith(Canonical(mapping, source, path), "/") && IsNormal(Canonical(mapping, source, path))
  {
    NotRefused(path);
    var i := IndexOf(path, '/');
    var canonical := LookupRepo(mapping, source, path[..i]);
    if source.Some? { FoundNameIsGood(mapping.prefixed, source.value, path[..i]); }
    hide Refused, FirstPrefix, Contains;
    if i + 1 < |path| && canonical.Some? {
      var c := canonical.value;
      assert GoodName(c);
      var r := c + "/" + path[i + 1..];
      forall j | 0 <= j < |r| - 1 ensures r[j] != '/' || r[j + 1] != '/' {
        if j > |c| { assert r[j] == path[i + j - |c|] && r[j + 1] == path[i + j - |c| + 1]; }
        if j == |c| { assert r[j + 1] == path[i + 1] && path[i] == '/'; }
      }
    }
  }

  /** `Rlocation` over a manifest; `source` is the repository in whose mapping
      the path is read. */
  method Rlocation(strategy: ManifestBased, mapping: RepoMapping, path: string, source: Option<string>)
    returns (r: Answer)
    requires GoodMapping(mapping)
    ensures if Refused(path) then r == ValueError
            else if StartsWith(path, "/") then r == Answer(Some(path))
            else r.Answer? && IsLocation(strategy.runfiles, Canonical(mapping, source, path), r.location)
  {
    hide Refused;
    if Refused(path) { return ValueError; }
    if StartsWith(path, "/") { return Answer(Some(path)); }
    CanonicalIsNormal(mapping, source, path);
    hide *;
    var found := strategy.RlocationChecked(Canonical(mapping, source, path));
    r := Answer(found);
  }
}
