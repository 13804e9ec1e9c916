/** What one import resolves to, told over the list of its possible modules and by
    what each of them is listed as. */
module Resolution {
  import opened Text
  import opened ModuleMap
  import opened Resolver

  // -------------------------------------------------------- possible modules

  /** The import, then each name it is below, longest first. */
  function PossibleModules(name: string): (names: seq<string>)
    ensures names != [] && names[0] == name
    decreases |name|
  {
    [name] + match Parent(name) case None => [] case Some(p) => PossibleModules(p)
  }

  /** They are the import and what stands before each of its dots. */
  lemma {:induction false} PossibleAre(name: string, n: string)
    ensures n in PossibleModules(name) <==> n == name || (n < name && name[|n|] == '.')
    decreases |name|
  {
    var i := LastIndexOf(name, '.');
    match Parent(name) {
      case None =>
      case Some(p) =>
        PossibleAre(p, n);
        if n < name && name[|n|] == '.' { assert |n| <= i && n == name[..|n|] == p[..|n|]; }
        if n < p && p[|n|] == '.' { assert n == p[..|n|] == name[..|n|]; }
    }
  }

  // ------------------------------------------------ what a module is listed as

  ghost predicate Overridden(env: Env, n: string) {
    n in env.overrides
  }

  /** A directive's target; without a repository it is in the rule's own. */
  ghost predicate Directs(env: Env, n: string, target: Label) {
    n in env.overrides
    && var l := env.overrides[n]; target == Label(if l.repo == "" then env.from.repo else l.repo, l.pkg, l.name)
  }

  /** The nearest manifest that lists the module is that of level `i`. */
  ghost predicate NearestIs(levels: seq<Level>, n: string, i: nat) {
    i < |levels| && Lists(levels[i], n) && forall j :: 0 <= j < i ==> !Lists(levels[j], n)
  }

  ghost predicate InManifest(env: Env, n: string) {
    !Overridden(env, n) && exists i :: 0 <= i < |env.levels| && Lists(env.levels[i], n)
  }

  /** Claimed by rules of the repository. */
  ghost predicate Claimed(env: Env, n: string) {
    !Overridden(env, n) && !InManifest(env, n) && n in env.index && env.index[n] != []
  }

  ghost predicate Nowhere(env: Env, n: string) {
    !Overridden(env, n) && !InManifest(env, n) && !Claimed(env, n)
  }

  ghost predicate ClaimedByItself(env: Env, n: string) {
    Claimed(env, n)
    && exists i :: 0 <= i < |env.index[n]| && (env.index[n][i].target == env.from || env.from in env.index[n][i].embeds)
  }

  /** The rule to depend on: the only one, or of several the only one in the project. */
  ghost predicate ClaimedBy(env: Env, n: string, i: nat) {
    && Claimed(env, n) && !ClaimedByItself(env, n) && i < |env.index[n]|
    && (|env.index[n]| > 1 ==> forall j :: 0 <= j < |env.index[n]| ==>
          (env.projectRoot <= env.index[n][j].target.pkg <==> j == i))
  }

  // ----------------------------------------------------------- what it comes to

  /** A target as the rule names it. */
  function Named(env: Env, target: Label): Label {
    Label(if target.repo == env.from.repo then "" else target.repo, target.pkg, target.name)
  }

  /** Where a wheel's stubs may be listed. */
  ghost predicate IsStubName(n: string, distribution: string) {
    var d := Lower(distribution);
    n == d + "_stubs" || n == d + "_types" || n == "types_" + d || n == "stubs_" + d
  }

  ghost predicate WheelIs(levels: seq<Level>, n: string, i: nat, dep: Label, distribution: string) {
    && NearestIs(levels, n, i)
    && var m := levels[i].manifest.value;
         distribution == m.modules[n] && dep == levels[i].format(m.repository, distribution)
  }

  ghost predicate AreStubs(levels: seq<Level>, distribution: string, stubs: set<Label>) {
    forall l :: l in stubs <==>
      exists n, i: nat, d :: IsStubName(n, distribution) && WheelIs(levels, n, i, l, d)
  }

  /** The module gives the dependency. */
  ghost predicate GivesDep(env: Env, n: string, dep: Label, stubs: set<Label>) {
    || (exists t :: Directs(env, n, t) && t != env.from && dep == Named(env, t) && stubs == {})
    || (InManifest(env, n) && exists i: nat, d :: WheelIs(env.levels, n, i, dep, d) && AreStubs(env.levels, d, stubs))
    || (exists i: nat :: ClaimedBy(env, n, i) && dep == Named(env, env.index[n][i].target) && stubs == {})
  }

  /** The module ends the search without one. */
  ghost predicate NeedsNone(env: Env, n: string) {
    (Nowhere(env, n) && n in env.stdlib) || ClaimedByItself(env, n)
  }

  /** The module is passed over with an error: unknown and checked, or claimed by
      several rules of which not one alone is in the project. */
  ghost predicate IsFaulty(env: Env, n: string) {
    || (Nowhere(env, n) && n !in env.stdlib && env.validate)
    || (Claimed(env, n) && !ClaimedByItself(env, n) && forall i: nat :: !ClaimedBy(env, n, i))
  }

  ghost predicate Settles(env: Env, n: string) {
    NeedsNone(env, n) || exists dep, stubs :: GivesDep(env, n, dep, stubs)
  }

  // --------------------------------------------------------------- one module

  lemma {:induction false} ThirdPartyIs(levels: seq<Level>, n: string)
    ensures FindThirdParty(levels, n).None? ==> forall i :: 0 <= i < |levels| ==> !Lists(levels[i], n)
    ensures FindThirdParty(levels, n).Some? ==>
              exists i: nat :: WheelIs(levels, n, i, FindThirdParty(levels, n).value.0,
                  FindThirdParty(levels, n).value.1)
  {
    if levels != [] {
      if Lists(levels[0], n) {
        assert NearestIs(levels, n, 0);
        assert WheelIs(levels, n, 0, FindThirdParty(levels, n).value.0, FindThirdParty(levels, n).value.1);
      } else {
        ThirdPartyIs(levels[1..], n);
        if FindThirdParty(levels, n).Some? {
          var (dep, d) := FindThirdParty(levels, n).value;
          var i: nat :| WheelIs(levels[1..], n, i, dep, d);
          assert NearestIs(levels, n, i + 1);
          assert WheelIs(levels, n, i + 1, dep, d);
        }
      }
    }
  }

  lemma OneNearestIs(levels: seq<Level>, n: string, i: nat, j: nat)
    requires NearestIs(levels, n, i) && NearestIs(levels, n, j)
    ensures i == j
  {
  }

  lemma WheelFound(levels: seq<Level>, n: string, i: nat, dep: Label, d: string)
    requires WheelIs(levels, n, i, dep, d)
    ensures FindThirdParty(levels, n) == Some((dep, d))
  {
    ThirdPartyIs(levels, n);
    var (dep', d') := FindThirdParty(levels, n).value;
    var j: nat :| WheelIs(levels, n, j, dep', d');
    OneNearestIs(levels, n, i, j);
  }

  lemma StubsAre(levels: seq<Level>, d: string)
    ensures AreStubs(levels, d, StubsIn(levels, StubNames(d)))
  {
    hide Lower, WheelIs;
    var stubs := StubsIn(levels, StubNames(d));
    forall l ensures l in stubs <==> exists n, i: nat, w :: IsStubName(n, d) && WheelIs(levels, n, i, l, w) {
      if l in stubs {
        var n :| n in StubNames(d) && FindThirdParty(levels, n).Some? && FindThirdParty(levels, n).value.0 == l;
        ThirdPartyIs(levels, n);
        var i: nat :| WheelIs(levels, n, i, l, FindThirdParty(levels, n).value.1);
        assert IsStubName(n, d);
      }
      if n, i: nat, w :| IsStubName(n, d) && WheelIs(levels, n, i, l, w) {
        WheelFound(levels, n, i, l, w);
        assert n in StubNames(d);
      }
    }
  }

  predicate InProject(env: Env, r: FindResult) {
    env.projectRoot <= r.target.pkg
  }

  ghost predicate OnlyInProject(env: Env, results: seq<FindResult>, i: nat) {
    i < |results| && forall j :: 0 <= j < |results| ==> (InProject(env, results[j]) <==> j == i)
  }

  lemma {:induction false} NoneInProject(env: Env, results: seq<FindResult>)
    ensures SameRoot(env, results) == [] <==> forall j :: 0 <= j < |results| ==> !InProject(env, results[j])
  {
    if results != [] {
      NoneInProject(env, results[1..]);
      assert forall j :: 0 < j < |results| ==> results[j] == results[1..][j - 1];
    }
  }

  lemma {:induction false} OneInProject(env: Env, results: seq<FindResult>, i: nat)
    requires OnlyInProject(env, results, i)
    ensures SameRoot(env, results) == [results[i]]
  {
    assert InProject(env, results[0]) <==> i == 0;
    if i == 0 {
      NoneInProject(env, results[1..]);
    } else {
      OneInProject(env, results[1..], i - 1);
    }
  }

  lemma {:induction false} InProjectAt(env: Env, results: seq<FindResult>) returns (i: nat)
    requires |SameRoot(env, results)| == 1
    ensures OnlyInProject(env, results, i)
  {
    if InProject(env, results[0]) {
      i := 0;
      NoneInProject(env, results[1..]);
      assert forall j :: 0 < j < |results| ==> results[j] == results[1..][j - 1];
    } else {
      i := InProjectAt(env, results[1..]);
      assert forall j :: 0 < j < |results| ==> results[j] == results[1..][j - 1];
      i := i + 1;
    }
  }

  lemma ClaimedByIs(env: Env, n: string, i: nat)
    requires Claimed(env, n) && !ClaimedByItself(env, n)
    ensures ClaimedBy(env, n, i) <==>
              i < |env.index[n]| && (|env.index[n]| > 1 ==> OnlyInProject(env, env.index[n], i))
  {
    hide Claimed, ClaimedByItself;
  }

  lemma ManifestIs(env: Env, n: string)
    ensures n !in env.overrides ==> (InManifest(env, n) <==> FindThirdParty(env.levels, n).Some?)
  {
    ThirdPartyIs(env.levels, n);
    hide FindThirdParty;
  }

  /** What a rule's own index entry comes to. */
  lemma FirstPartyIs(env: Env, n: string)
    requires n !in env.overrides && !InManifest(env, n)
    ensures match FirstParty(env, n)
            case Found(dep, stubs) =>
              stubs == {} && exists i: nat :: ClaimedBy(env, n, i) && dep == Named(env, env.index[n][i].target)
            case Settled => NeedsNone(env, n)
            case Next(bad) =>
              !NeedsNone(env, n) && (forall i: nat :: !ClaimedBy(env, n, i)) && (bad <==> IsFaulty(env, n))
  {
    hide InManifest;
    if Claimed(env, n) && !ClaimedByItself(env, n) {
      var matches := env.index[n];
      hide SameRoot, InProject;
      forall i: nat ensures ClaimedBy(env, n, i) <==>
          i < |matches| && (|matches| > 1 ==> OnlyInProject(env, matches, i)) {
        ClaimedByIs(env, n, i);
      }
      hide ClaimedBy;
      if |matches| == 1 {
        assert ClaimedBy(env, n, 0);
      } else if |SameRoot(env, matches)| == 1 {
        var i := InProjectAt(env, matches);
        OneInProject(env, matches, i);
        assert ClaimedBy(env, n, i);
      } else {
        forall i: nat ensures !ClaimedBy(env, n, i) {
          if OnlyInProject(env, matches, i) { OneInProject(env, matches, i); }
        }
      }
    }
  }

  /** The case split on one possible module, by what it is listed as. */
  lemma CandidateIs(env: Env, n: string)
    ensures match Candidate(env, n)
            case Found(dep, stubs) => GivesDep(env, n, dep, stubs) && !NeedsNone(env, n) && !IsFaulty(env, n)
            case Settled => NeedsNone(env, n)
            case Next(bad) => !Settles(env, n) && (bad <==> IsFaulty(env, n))
  {
    ManifestIs(env, n);
    if n in env.overrides {
      OverrideIs(env, n);
    } else if InManifest(env, n) {
      ThirdPartyIs(env.levels, n);
      var (dep, d) := FindThirdParty(env.levels, n).value;
      StubsAre(env.levels, d);
      hide FindThirdParty, StubsIn, StubNames, WheelIs, AreStubs;
    } else {
      FirstPartyIs(env, n);
      hide FirstParty, InManifest, ClaimedByItself, ClaimedBy, AreStubs, WheelIs;
      match FirstParty(env, n) {
        case Found(dep, stubs) => assert GivesDep(env, n, dep, stubs);
        case Settled =>
        case Next(_) =>
      }
    }
  }

  lemma OverrideIs(env: Env, n: string)
    requires n in env.overrides
    ensures var t := Overriding(env, env.overrides[n]);
            && Directs(env, n, t) && Relative(env, t) == Named(env, t) && (forall u :: Directs(env, n, u) ==> u == t)
  {
  }

  /** Two accounts of what a module gives are one. */
  lemma GivesOne(env: Env, n: string, dep: Label, stubs: set<Label>, dep': Label, stubs': set<Label>)
    requires GivesDep(env, n, dep, stubs) && GivesDep(env, n, dep', stubs')
    ensures dep == dep' && stubs == stubs'
  {
    ManifestIs(env, n);
    if InManifest(env, n) {
      var i: nat, d :| WheelIs(env.levels, n, i, dep, d) && AreStubs(env.levels, d, stubs);
      var j: nat, e :| WheelIs(env.levels, n, j, dep', e) && AreStubs(env.levels, e, stubs');
      WheelFound(env.levels, n, i, dep, d);
      WheelFound(env.levels, n, j, dep', e);
      hide WheelIs, IsStubName, FindThirdParty;
      assert stubs == stubs';
    } else if n !in env.overrides {
      var i: nat :| ClaimedBy(env, n, i) && dep == Named(env, env.index[n][i].target);
      var j: nat :| ClaimedBy(env, n, j) && dep' == Named(env, env.index[n][j].target);
      hide Claimed, ClaimedByItself;
      assert i == j;
    }
  }

  // ----------------------------------------------------------------- the list

  /** The first possible module that settles the import is the `k`-th. */
  ghost predicate FirstSettling(env: Env, names: seq<string>, k: nat) {
    k < |names| && Settles(env, names[k]) && forall j :: 0 <= j < k ==> !Settles(env, names[j])
  }

  ghost predicate NoneSettles(env: Env, names: seq<string>) {
    forall j :: 0 <= j < |names| ==> !Settles(env, names[j])
  }

  ghost predicate SomeFaulty(env: Env, names: seq<string>) {
    exists j :: 0 <= j < |names| && IsFaulty(env, names[j])
  }

  /** What the module that settles an import makes of it. */
  ghost predicate ComesTo(env: Env, n: string, r: Resolver.Resolution) {
    match r
    case Resolved(dep, stubs) => GivesDep(env, n, dep, stubs) && !NeedsNone(env, n)
    case NoDependency => NeedsNone(env, n)
    case Unresolved => false
  }

  ghost predicate SettledAt(env: Env, names: seq<string>, k: nat, r: Resolver.Resolution) {
    FirstSettling(env, names, k) && ComesTo(env, names[k], r)
  }

  lemma {:induction false} WalkSettles(env: Env, name: string, failed: bool)
    ensures var names := PossibleModules(name);
            if NoneSettles(env, names) then
              Walk(env, name, failed) == if failed || SomeFaulty(env, names) then Resolver.Unresolved else NoDependency
            else
              exists k: nat :: SettledAt(env, names, k, Walk(env, name, failed))
    decreases |name|
  {
    CandidateIs(env, name);
    var names := PossibleModules(name);
    hide Candidate, NeedsNone, IsFaulty, GivesDep;
    match Candidate(env, name) {
      case Found(_, _) => assert SettledAt(env, names, 0, Walk(env, name, failed));
      case Settled => assert SettledAt(env, names, 0, Walk(env, name, failed));
      case Next(bad) =>
        match Parent(name) {
          case None => assert names == [name];
          case Some(p) =>
            WalkSettles(env, p, failed || bad);
            var rest := PossibleModules(p);
            assert names == [name] + rest && Walk(env, name, failed) == Walk(env, p, failed || bad);
            LaterFaulty(env, name, rest);
            hide *;
            if !NoneSettles(env, rest) {
              var k: nat :| SettledAt(env, rest, k, Walk(env, p, failed || bad));
              SettledLater(env, name, rest, k, Walk(env, p, failed || bad));
            }
        }
    }
  }

  lemma SettledLater(env: Env, name: string, rest: seq<string>, k: nat, r: Resolver.Resolution)
    requires SettledAt(env, rest, k, r) && !Settles(env, name)
    ensures SettledAt(env, [name] + rest, k + 1, r)
  {
    hide Settles, ComesTo;
    var names := [name] + rest;
    assert names[k + 1] == rest[k];
    assert forall j :: 0 < j <= k ==> names[j] == rest[j - 1];
  }

  lemma LaterFaulty(env: Env, name: string, rest: seq<string>)
    ensures SomeFaulty(env, [name] + rest) <==> IsFaulty(env, name) || SomeFaulty(env, rest)
    ensures NoneSettles(env, [name] + rest) <==> !Settles(env, name) && NoneSettles(env, rest)
  {
    hide IsFaulty, Settles;
    var names := [name] + rest;
    if j :| 0 <= j < |rest| && IsFaulty(env, rest[j]) { assert names[j + 1] == rest[j]; }
    if j :| 0 <= j < |rest| && Settles(env, rest[j]) { assert names[j + 1] == rest[j]; }
    assert names[0] == name;
  }

  /** An import is unresolved exactly when no possible module settles it and one is
      faulty. */
  lemma UnresolvedIff(env: Env, name: string)
    ensures Walk(env, name, false) == Resolver.Unresolved <==>
              NoneSettles(env, PossibleModules(name)) && SomeFaulty(env, PossibleModules(name))
  {
    WalkSettles(env, name, false);
    hide Walk, GivesDep, NeedsNone, NoneSettles, SomeFaulty, PossibleModules, FirstSettling;
  }

  /** It needs no dependency exactly when the first possible module that settles it is
      in the standard library or the rule's own, or when none settles it and none is
      faulty. */
  lemma NoDependencyIff(env: Env, name: string)
    ensures Walk(env, name, false) == NoDependency <==>
              var names := PossibleModules(name);
              || (exists k: nat :: FirstSettling(env, names, k) && NeedsNone(env, names[k]))
              || (NoneSettles(env, names) && !SomeFaulty(env, names))
  {
    WalkSettles(env, name, false);
    hide Walk, GivesDep, NeedsNone, SomeFaulty, Settles, PossibleModules;
    SettledOnce(env, PossibleModules(name));
  }

  lemma SettledOnce(env: Env, names: seq<string>)
    ensures forall j: nat, k: nat :: FirstSettling(env, names, j) && FirstSettling(env, names, k) ==> j == k
    ensures NoneSettles(env, names) ==> forall k: nat :: !FirstSettling(env, names, k)
  {
    hide Settles;
  }

  /** And otherwise it resolves to what the first possible module gives that settles
      it. */
  lemma ResolvedIff(env: Env, name: string, dep: Label, stubs: set<Label>)
    ensures Walk(env, name, false) == Resolved(dep, stubs) <==>
              var names := PossibleModules(name);
              exists k: nat :: FirstSettling(env, names, k) && !NeedsNone(env, names[k]) && GivesDep(env, names[k],
                  dep, stubs)
  {
    WalkSettles(env, name, false);
    var names := PossibleModules(name);
    hide Walk, GivesDep, NeedsNone, SomeFaulty, Settles, PossibleModules;
    SettledOnce(env, names);
    if k: nat :| FirstSettling(env, names, k) && !NeedsNone(env, names[k]) && GivesDep(env, names[k], dep, stubs) {
      match Walk(env, name, false) {
        case Resolved(d, s) => GivesOne(env, names[k], dep, stubs, d, s);
        case _ =>
      }
    }
  }
}
