/** What a runfiles lookup answers, in terms of the mapping's lines and the
    manifest's entries. */
module RunfilesLookup {
  import opened Text
  import opened Runfiles

  // --------------------------------------------------------- the repository mapping

  ghost predicate Fits(p: Prefixed, source: string, apparent: string) {
    p.apparent == apparent && p.source <= source
  }

  lemma {:induction false} FirstPrefixIs(ps: seq<Prefixed>, source: string, apparent: string)
    ensures match FirstPrefix(ps, source, apparent)
            case None => forall p :: p in ps ==> !Fits(p, source, apparent)
            case Some(c) =>
              exists i :: 0 <= i < |ps| && Fits(ps[i], source, apparent) && ps[i].canonical == c
                          && forall j :: 0 <= j < i ==> !Fits(ps[j], source, apparent)
  {
    if ps != [] {
      var rest := ps[1..];
      FirstPrefixIs(rest, source, apparent);
      assert ps == [ps[0]] + rest;
      if Fits(ps[0], source, apparent) {
        assert ps[0].canonical == ps[0].canonical;
      } else if FirstPrefix(rest, source, apparent).Some? {
        var c := FirstPrefix(rest, source, apparent).value;
        var i :| 0 <= i < |rest| && Fits(rest[i], source, apparent) && rest[i].canonical == c
                 && forall j :: 0 <= j < i ==> !Fits(rest[j], source, apparent);
        assert ps[i + 1].canonical == c && forall j :: 0 < j < i + 1 ==> ps[j] == rest[j - 1];
      }
    }
  }

  /** What the mapping makes of a repository's name: nothing without a source, then
      the exact line, then the first line whose prefix fits. */
  ghost predicate MapsTo(mapping: RepoMapping, source: Option<string>, apparent: string, canonical: string) {
    && source.Some?
    && if (source.value, apparent) in mapping.exact then mapping.exact[(source.value, apparent)] == canonical
       else exists i :: 0 <= i < |mapping.prefixed| && Fits(mapping.prefixed[i], source.value, apparent)
                        && mapping.prefixed[i].canonical == canonical
                        && forall j :: 0 <= j < i ==> !Fits(mapping.prefixed[j], source.value, apparent)
  }

  lemma LookupRepoIs(mapping: RepoMapping, source: Option<string>, apparent: string, canonical: string)
    ensures LookupRepo(mapping, source, apparent) == Some(canonical) <==> MapsTo(mapping, source, apparent, canonical)
  {
    if source.Some? && (source.value, apparent) !in mapping.exact {
      FirstPrefixIs(mapping.prefixed, source.value, apparent);
      hide FirstPrefix, Fits;
      var ps := mapping.prefixed;
      if MapsTo(mapping, source, apparent, canonical) {
        var i :| 0 <= i < |ps| && Fits(ps[i], source.value, apparent) && ps[i].canonical == canonical
                 && forall j :: 0 <= j < i ==> !Fits(ps[j], source.value, apparent);
        assert ps[i] in ps;
        var c := FirstPrefix(ps, source.value, apparent).value;
        var k :| 0 <= k < |ps| && Fits(ps[k], source.value, apparent) && ps[k].canonical == c
                 && forall j :: 0 <= j < k ==> !Fits(ps[j], source.value, apparent);
        assert i == k;
      }
    }
  }

  /** The path that is looked up. */
  ghost predicate IsRewritten(mapping: RepoMapping, source: Option<string>, repo: string, rest: string, path: string) {
    if c :| MapsTo(mapping, source, repo, c) then path == c + "/" + rest else path == repo + "/" + rest
  }

  lemma OneMapping(mapping: RepoMapping, source: Option<string>, apparent: string)
    ensures forall c, d :: MapsTo(mapping, source, apparent, c) && MapsTo(mapping, source, apparent, d) ==> c == d
  {
    forall c, d | MapsTo(mapping, source, apparent, c) && MapsTo(mapping, source, apparent, d) ensures c == d {
      LookupRepoIs(mapping, source, apparent, c);
      LookupRepoIs(mapping, source, apparent, d);
    }
  }

  /** The first component is replaced by the name it maps to where more follows it;
      every other path stays as it is. */
  lemma CanonicalIs(mapping: RepoMapping, source: Option<string>, repo: string, rest: string)
    requires '/' !in repo
    ensures rest != "" ==> IsRewritten(mapping, source, repo, rest, Canonical(mapping, source, repo + "/" + rest))
    ensures Canonical(mapping, source, repo) == repo && Canonical(mapping, source, repo + "/") == repo + "/"
  {
    OneMapping(mapping, source, repo);
    var path := repo + "/" + rest;
    IndexOfIs(path, '/', |repo|);
    IndexOfIs(repo, '/', |repo|);
    IndexOfIs(repo + "/", '/', |repo|);
    assert path[..|repo|] == repo && path[|repo| + 1..] == rest;
    hide LookupRepo, MapsTo;
    var found := LookupRepo(mapping, source, repo);
    if found.Some? { LookupRepoIs(mapping, source, repo, found.value); }
    if c :| MapsTo(mapping, source, repo, c) { LookupRepoIs(mapping, source, repo, c); }
  }

  // ------------------------------------------------------------------ the manifest

  /** The manifest has an entry for it that is not empty. */
  ghost predicate HasEntry(m: Manifest, path: string, target: string) {
    path in m && m[path] == target && target != ""
  }

  /** A proper directory of the path that has an entry, with the rest below it. */
  ghost predicate HasDirectory(m: Manifest, path: string, dir: string, rest: string, target: string) {
    path == dir + "/" + rest && rest != "" && HasEntry(m, dir, target)
  }

  lemma DirectoryIs(m: Manifest, path: string, p: int)
    ensures Listed(m, path, p) ==>
              HasDirectory(m, path, path[..p], path[p + 1..], m[path[..p]])
              && Under(m, path, p) == m[path[..p]] + "/" + path[p + 1..]
  {
    if Listed(m, path, p) { assert path == path[..p] + "/" + path[p + 1..]; }
  }

  lemma DirectoryListed(m: Manifest, path: string, dir: string, rest: string, target: string)
    requires HasDirectory(m, path, dir, rest, target)
    ensures Listed(m, path, |dir|) && Under(m, path, |dir|) == target + "/" + rest
  {
    assert path[..|dir|] == dir && path[|dir| + 1..] == rest;
  }

  /** No other directory of the path with an entry is longer. */
  ghost predicate IsLongest(m: Manifest, path: string, dir: string, rest: string, target: string) {
    && HasDirectory(m, path, dir, rest, target)
    && forall d, e, t :: HasDirectory(m, path, d, e, t) ==> |d| <= |dir|
  }

  ghost predicate HasNoEntry(m: Manifest, path: string) {
    forall t :: !HasEntry(m, path, t)
  }

  lemma ListsIs(m: Manifest, path: string)
    ensures Lists(m, path) <==> !HasNoEntry(m, path)
  {
    if Lists(m, path) { assert HasEntry(m, path, m[path]); }
  }

  /** A path with an entry is found there. */
  lemma EntryIsFound(m: Manifest, path: string, r: Option<string>, target: string)
    requires IsLocation(m, path, r) && HasEntry(m, path, target)
    ensures r == Some(target)
  {
    hide Listed;
  }

  /** Without one it is found below the longest directory that has one. */
  lemma LongestIsFound(m: Manifest, path: string, r: Option<string>, dir: string, rest: string, target: string)
    requires IsLocation(m, path, r) && HasNoEntry(m, path) && IsLongest(m, path, dir, rest, target)
    ensures r == Some(target + "/" + rest)
  {
    ListsIs(m, path);
    DirectoryListed(m, path, dir, rest, target);
    forall q | Listed(m, path, q) ensures q <= |dir| {
      DirectoryIs(m, path, q);
    }
    hide Listed, Lists, HasDirectory, HasNoEntry;
    var p :| Listed(m, path, p) && (forall q :: Listed(m, path, q) ==> q <= p) && r == Some(Under(m, path, p));
    assert p == |dir|;
  }

  ghost predicate HasNoDirectory(m: Manifest, path: string) {
    forall d, e, t :: !HasDirectory(m, path, d, e, t)
  }

  lemma NoneIsListed(m: Manifest, path: string)
    ensures HasNoDirectory(m, path) <==> forall p :: !Listed(m, path, p)
  {
    hide Listed, HasDirectory;
    forall d, e, t | HasDirectory(m, path, d, e, t) ensures Listed(m, path, |d|) { DirectoryListed(m, path, d, e, t); }
    if p :| Listed(m, path, p) { ListedHasDirectory(m, path, p); }
  }

  lemma ListedHasDirectory(m: Manifest, path: string, p: int)
    requires Listed(m, path, p)
    ensures exists d, e, t :: HasDirectory(m, path, d, e, t)
  {
    DirectoryIs(m, path, p);
    hide HasDirectory;
  }

  /** Nothing is found exactly when neither has an entry. */
  lemma NothingIsFoundIff(m: Manifest, path: string, r: Option<string>)
    requires IsLocation(m, path, r)
    ensures r == None <==> HasNoEntry(m, path) && HasNoDirectory(m, path)
  {
    ListsIs(m, path);
    NoneIsListed(m, path);
    hide Listed, Lists, HasNoDirectory, HasNoEntry, Under;
  }

  // ---------------------------------------------------------------- refused paths

  /** Before or behind a slash at `i` something stands that is not looked up. */
  predicate IsBadAt(path: string, i: nat) {
    && i < |path| && path[i] == '/'
    && (|| (i + 1 < |path| && path[i + 1] == '/')
        || (i + 2 < |path| && path[i + 1] == '.' && (path[i + 2] == '.' || path[i + 2] == '/'))
        || (i + 2 == |path| && path[i + 1] == '.'))
  }

  lemma TwoAt(path: string, i: nat, a: char, b: char)
    requires i <= |path|
    ensures [a, b] <= path[i..] <==> i + 1 < |path| && path[i] == a && path[i + 1] == b
  {
    if i + 1 < |path| { assert path[i..][0] == path[i] && path[i..][1] == path[i + 1]; }
  }

  lemma ThreeAt(path: string, i: nat, a: char, b: char, c: char)
    requires i <= |path|
    ensures [a, b, c] <= path[i..] <==> i + 2 < |path| && path[i] == a && path[i + 1] == b && path[i + 2] == c
  {
    if i + 2 < |path| {
      assert path[i..][0] == path[i] && path[i..][1] == path[i + 1] && path[i..][2] == path[i + 2];
    }
  }

  /** A path is refused exactly when it is empty or starts with a backslash, with
      `./` or with `../`, or holds an empty component, one that is a dot, or one
      behind a slash that starts with two dots. */
  lemma RefusedIff(path: string)
    ensures Refused(path) <==>
              || path == "" || path[0] == '\\'
              || (|path| >= 2 && path[0] == '.' && path[1] == '/')
              || (|path| >= 3 && path[0] == '.' && path[1] == '.' && path[2] == '/')
              || exists i :: IsBadAt(path, i)
  {
    assert path[0..] == path;
    TwoAt(path, 0, '.', '/');
    ThreeAt(path, 0, '.', '.', '/');
    assert "./" == ['.', '/'] && "../" == ['.', '.', '/'];
    assert "//" == ['/', '/'] && "/.." == ['/', '.', '.'] && "/./" == ['/', '.', '/'] && "/." == ['/', '.'];
    forall i: nat | i <= |path|
      ensures IsBadAt(path, i) <==> "//" <= path[i..] || "/.." <= path[i..] || "/./" <= path[i..]
                                    || (i + 2 == |path| && "/." <= path[i..])
    {
      TwoAt(path, i, '/', '/');
      ThreeAt(path, i, '/', '.', '.');
      ThreeAt(path, i, '/', '.', '/');
      TwoAt(path, i, '/', '.');
    }
    hide IsBadAt;
    EndIs(path);
    if Contains(path, "//") {
      var i :| 0 <= i <= |path| && "//" <= path[i..];
      assert IsBadAt(path, i);
    }
    if Contains(path, "/..") {
      var i :| 0 <= i <= |path| && "/.." <= path[i..];
      assert IsBadAt(path, i);
    }
    if Contains(path, "/./") {
      var i :| 0 <= i <= |path| && "/./" <= path[i..];
      assert IsBadAt(path, i);
    }
  }

  lemma EndIs(path: string)
    ensures EndsWith(path, "/.") <==> |path| >= 2 && "/." <= path[|path| - 2..]
  {
  }

  // ------------------------------------------------------------- unreadable lines

  /** A line cannot be read exactly when nothing separates its two parts. */
  lemma LineFailsIff(line: string)
    ensures LoadLine(line) == None <==> ' ' !in (if " " <= line then line[1..] else line)
  {
    hide UnescapeLink, UnescapeTarget;
    var s := if " " <= line then line[1..] else line;
    assert IndexOf(s, ' ') == |s| <==> ' ' !in s;
  }

  lemma {:induction false} LoadFailsIff(lines: seq<string>)
    ensures Load(lines) == None <==> exists l :: l in lines && LoadLine(l) == None
  {
    hide LoadLine;
    if lines != [] {
      var (front, last) := (lines[..|lines| - 1], lines[|lines| - 1]);
      LoadFailsIff(front);
      assert lines == front + [last];
    }
  }

  /** The last line for that path, an empty target standing for the path itself. */
  ghost predicate IsLastLink(links: seq<Link>, i: nat, path: string, target: string) {
    && i < |links| && links[i].path == path && target == (if links[i].target != "" then links[i].target else path)
    && forall j :: i < j < |links| ==> links[j].path != path
  }

  /** Of several lines for one path the last stands. */
  lemma {:induction false} AsMapIs(links: seq<Link>, path: string, target: string)
    ensures path in AsMap(links) && AsMap(links)[path] == target <==>
              exists i: nat :: IsLastLink(links, i, path, target)
  {
    if links != [] {
      var (front, last) := (links[..|links| - 1], links[|links| - 1]);
      AsMapIs(front, path, target);
      forall i: nat | i < |front|
        ensures IsLastLink(links, i, path, target) <==> IsLastLink(front, i, path, target) && last.path != path
      {
      }
      assert IsLastLink(links, |front|, path, target) <==> last.path == path && Resolved(last) == target;
      assert forall i: nat :: IsLastLink(front, i, path, target) ==> i < |front|;
      assert forall i: nat :: IsLastLink(links, i, path, target) ==> i <= |front|;
      hide IsLastLink, Resolved;
      if last.path != path {
        if i: nat :| IsLastLink(front, i, path, target) { assert IsLastLink(links, i, path, target); }
        if i: nat :| IsLastLink(links, i, path, target) { assert i < |front|; }
      }
    }
  }
}
