/** Ids, aliases and references as an author writes them, and what they find once an
    object has been registered. */
module BzlReferences {
  import opened Text
  import opened BzlIndex
  import opened BzlCoherence

  // -------------------------------------------------------------- ids and aliases

  predicate IsLabel(repo: string, file: string) {
    '/' !in repo && StartsWith(file, "//") && '%' !in file
  }

  lemma {:induction false} NonEmptyParts(names: seq<string>)
    ensures forall n :: n in NonEmptyOf(names) <==> n in names && n != ""
  {
    if names != [] {
      NonEmptyParts(names[1..]);
      assert names == [names[0]] + names[1..];
    }
  }

  lemma {:induction false} JoinedNotEmpty(names: seq<string>)
    requires names != [] && forall n :: n in names ==> n != ""
    ensures JoinDots(names) != ""
  {
    if |names| == 1 { assert names[0] in names; }
  }

  /** The alias every object gets is the id it would have without a repository. */
  lemma RepoLessIs(repo: string, file: string, names: seq<string>)
    requires IsLabel(repo, file)
    ensures RepoLess(FullId(repo, file, names)) == FullId("", file, names)
  {
    IdRoundTrip(repo, file, names);
    var kept := NonEmptyOf(names);
    NonEmptyParts(names);
    if kept != [] { JoinedNotEmpty(kept); } else { NothingJoined(); }
    hide ParseId, NonEmptyOf, JoinDots;
    assert "" + file == file;
  }

  lemma LastPart(front: string, last: string, c: char)
    requires c !in last
    ensures AfterLast(last, c) == last && AfterLast(front + [c] + last, c) == last
  {
    var s := front + [c] + last;
    assert s[|front|] == c && forall k :: |front| < k < |s| ==> s[k] == last[k - |front| - 1];
    assert LastIndexOf(s, c) == |front|;
  }

  lemma {:induction false} JoinedLast(names: seq<string>)
    requires names != []
    ensures JoinDots(names) == names[|names| - 1] || exists front :: JoinDots(names) == front + "." + names[|names| - 1]
  {
    if |names| > 1 {
      JoinedLast(names[1..]);
      var last := names[|names| - 1];
      if JoinDots(names[1..]) == last {
        assert JoinDots(names) == names[0] + "." + last;
      } else {
        var front :| JoinDots(names[1..]) == front + "." + last;
        assert JoinDots(names) == (names[0] + "." + front) + "." + last;
      }
    }
  }

  /** An object's name in its document is the last part of its symbol. */
  lemma SymbolBaseName(repo: string, file: string, names: seq<string>, last: string)
    requires IsLabel(repo, file) && NonEmptyOf(names) != []
    requires last == NonEmptyOf(names)[|NonEmptyOf(names)| - 1] && '.' !in last
    ensures BaseName(FullId(repo, file, names)) == last
  {
    var kept := NonEmptyOf(names);
    IdRoundTrip(repo, file, names);
    NonEmptyParts(names);
    JoinedNotEmpty(kept);
    JoinedLast(kept);
    LastPart("", last, '.');
    hide ParseId, NonEmptyOf, JoinDots, AfterLast;
    if front :| JoinDots(kept) == front + "." + last { LastPart(front, last, '.'); }
  }

  /** And that of a file what follows the last colon of its label. */
  lemma FileBaseName(repo: string, front: string, last: string)
    requires IsLabel(repo, front + ":" + last) && ':' !in last
    ensures BaseName(FullId(repo, front + ":" + last, [])) == last
  {
    IdRoundTrip(repo, front + ":" + last, []);
    LastPart(front, last, ':');
    hide ParseId, AfterLast;
  }

  // ------------------------------------------------------------------ references

  predicate IsPlainName(t: string) {
    '(' !in t && '=' !in t
  }

  lemma CutAt(t: string, c: char, rest: string)
    requires c !in t
    ensures IndexOf(t, c) == |t| && IndexOf(t + [c] + rest, c) == |t| && (t + [c] + rest)[..|t|] == t
  {
    IndexOfIs(t, c, |t|);
    IndexOfIs(t + [c] + rest, c, |t|);
  }

  lemma WantedIs(kind: string, t: string)
    requires !StartsWith(t, "--") && IsPlainName(t)
    ensures Wanted(kind, t) == (kind, t)
  {
    CutAt(t, '(', "");
    CutAt(t, '=', "");
    hide IndexOf;
    assert t[..|t|] == t;
  }

  /** `foo(x=1)` refers to `foo`. */
  lemma CallIsWanted(kind: string, t: string, arguments: string)
    requires t != "" && t[0] != '-' && IsPlainName(t)
    ensures Wanted(kind, t + "(" + arguments) == (kind, t)
  {
    CutAt(t, '(', arguments);
    CutAt(t, '=', "");
    hide IndexOf;
    assert (t + "(" + arguments)[0] == t[0];
    assert t[..|t|] == t;
  }

  lemma {:induction false} StripDashesIs(dashes: nat, t: string)
    requires t != "" && t[0] != '-' && t[|t| - 1] != '-'
    ensures StripDashes(Dashes(dashes) + t) == t
  {
    var s := Dashes(dashes) + t;
    if dashes == 0 {
      assert s == t;
    } else {
      assert s[0] == '-' && s[1..] == Dashes(dashes - 1) + t;
      StripDashesIs(dashes - 1, t);
    }
  }

  function Dashes(n: nat): string {
    seq(n, _ => '-')
  }

  /** `--name` refers to the flag `name`, with a value as well. */
  lemma FlagIsWanted(kind: string, t: string, value: string)
    requires t != "" && t[0] != '-' && t[|t| - 1] != '-' && IsPlainName(t) && value != "" && value[|value| - 1] != '-'
    ensures Wanted(kind, "--" + t) == ("flag", t) && Wanted(kind, "--" + t + "=" + value) == ("flag", t)
  {
    assert Dashes(2) == "--";
    StripDashesIs(2, t);
    FlagCut(kind, t, value);
    CutAt(t, '(', "");
    CutAt(t, '=', "");
    hide IndexOf, StripDashes, Dashes;
    assert t[..|t|] == t;
  }

  lemma FlagCut(kind: string, t: string, value: string)
    requires t != "" && t[0] != '-' && IsPlainName(t) && value != "" && value[|value| - 1] != '-'
    ensures Wanted(kind, "--" + t + "=" + value) == ("flag", t)
  {
    var s := t + "=" + value;
    assert Dashes(2) == "--" && "--" + t + "=" + value == Dashes(2) + s;
    StripDashesIs(2, s);
    ValueCut(t, value);
    hide StripDashes, Dashes, IndexOf;
  }

  lemma ValueCut(t: string, value: string)
    requires IsPlainName(t)
    ensures var s := t + "=" + value;
            var called := s[..IndexOf(s, '(')];
            called[..IndexOf(called, '=')] == t
  {
    var s := t + "=" + value;
    var i := IndexOf(s, '(');
    hide IndexOf;
    assert forall k :: 0 <= k < |t| ==> s[k] == t[k];
    assert s[|t|] == '=' && i > |t|;
    var called := s[..i];
    assert called[|t|] == '=' && forall k :: 0 <= k < |t| ==> called[k] == t[k];
    IndexOfIs(called, '=', |t|);
    assert called[..|t|] == t;
  }

  // ---------------------------------------------------------------- what they find

  /** Once an object has been added, its id without repository offers it to whatever
      role it plays. */
  lemma AddedIsOffered(ix: Index, e: Entry, aliases: set<string>, repo: string, file: string, names: seq<string>,
                       roles: Roles, k: string)
    requires IsLabel(repo, file) && e.fullId == FullId(repo, file, names) && Plays(roles, e, k)
    ensures e in Offered(Added(ix, e, aliases), roles, FullId("", file, names), k)
  {
    RepoLessIs(repo, file, names);
    AddedAt(ix, e, aliases, FullId("", file, names), e.fullId);
    hide Added, FullId, RepoLess, BaseName;
    var bucket := BucketOf(Added(ix, e, aliases).altNames, FullId("", file, names));
    assert e.fullId in bucket && bucket[e.fullId] == e;
    assert e in bucket.Values;
  }

  /** So does every other alias it was given. */
  lemma AliasIsOffered(ix: Index, e: Entry, aliases: set<string>, a: string, roles: Roles, k: string)
    requires a in aliases && Plays(roles, e, k)
    ensures e in Offered(Added(ix, e, aliases), roles, a, k)
  {
    AddedAt(ix, e, aliases, a, e.fullId);
    hide Added, RepoLess, BaseName;
    var bucket := BucketOf(Added(ix, e, aliases).altNames, a);
    assert e.fullId in bucket && bucket[e.fullId] == e;
    assert e in bucket.Values;
  }

  /** From another document, a reference to the id without repository finds the object
      if nothing else goes by that name; `found` is whatever the search may return. */
  lemma FoundWithoutRepository(ix: Index, e: Entry, aliases: set<string>, repo: string, file: string,
                               names: seq<string>,
                               roles: Roles, fromDoc: string, k: string, found: Option<Entry>)
    requires IsLabel(repo, file) && e.fullId == FullId(repo, file, names) && Plays(roles, e, k)
    requires var (out, t) := (Added(ix, e, aliases), FullId("", file, names));
             && At(out.docNames, fromDoc, t) == None && t !in SearchSpace(out, k) && t !in ix.altNames
             && Answers(out, roles, fromDoc, k, t, found)
    ensures found == Some(e)
  {
    var (out, t) := (Added(ix, e, aliases), FullId("", file, names));
    AddedIsOffered(ix, e, aliases, repo, file, names, roles, k);
    forall x | x in Offered(out, roles, t, k) ensures x == e {
      var id :| id in BucketOf(out.altNames, t) && BucketOf(out.altNames, t)[id] == x;
      AddedAt(ix, e, aliases, t, id);
    }
    hide Added, FullId, IsLabel, Offered, SearchSpace, Plays;
  }

  /** From its own document an object is found by its name there. */
  lemma FoundLocally(ix: Index, e: Entry, aliases: set<string>, roles: Roles, k: string, found: Option<Entry>)
    requires Plays(roles, e, k) && Answers(Added(ix, e, aliases), roles, e.doc, k, BaseName(e.fullId), found)
    ensures found == Some(e)
  {
    AddedAt(ix, e, aliases, e.doc, BaseName(e.fullId));
    hide Added, BaseName, Offered, SearchSpace, Plays;
  }

  /** From anywhere by its id, unless the document has another thing of that name. */
  lemma FoundById(ix: Index, e: Entry, aliases: set<string>, roles: Roles, fromDoc: string, k: string,
                  found: Option<Entry>)
    requires k == "obj" || k == e.kind
    requires var out := Added(ix, e, aliases);
             At(out.docNames, fromDoc, e.fullId) == None && Answers(out, roles, fromDoc, k, e.fullId, found)
    ensures found == Some(e)
  {
    AddedAt(ix, e, aliases, e.kind, e.fullId);
    hide BaseName, RepoLess, Offered, Plays;
  }
}
