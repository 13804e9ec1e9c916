/** Gazelle's resolution of one import: the walk over its possible modules, and
    what simplifying the modules mapping does to it. */
module Resolver {
  import opened Text
  import opened ModuleMap

  datatype Label = Label(repo: string, pkg: string, name: string)

  datatype Manifest = Manifest(modules: Mapping, repository: string)

  /** A package's configuration: its manifest and its label format for wheels. */
  datatype Level = Level(manifest: Option<Manifest>, format: (string, string) -> Label)

  datatype FindResult = FindResult(target: Label, embeds: set<Label>)

  datatype Env = Env(
    from: Label, overrides: map<string, Label>, levels: seq<Level>, index: map<string, seq<FindResult>>,
    stdlib: set<string>, validate: bool, projectRoot: string)

  /** What one possible module comes to. */
  datatype Step = Found(dep: Label, stubs: set<Label>) | Settled | Next(failed: bool)

  datatype Resolution = Resolved(dep: Label, stubs: set<Label>) | NoDependency | Unresolved

  // ---------------------------------------------------------- third parties

  /** `FindThirdPartyDependency`: the nearest configuration whose manifest lists
      the module, with the distribution name. */
  function FindThirdParty(levels: seq<Level>, name: string): Option<(Label, string)> {
    if levels == [] then None
    else if levels[0].manifest.Some? && name in levels[0].manifest.value.modules then
      var m := levels[0].manifest.value;
      Some((levels[0].format(m.repository, m.modules[name]), m.modules[name]))
    else FindThirdParty(levels[1..], name)
  }

  class Config {
    const parent: Config?
    const path: string
    const format: (string, string) -> Label
    ghost const depth: nat
    var manifest: Option<Manifest>

    constructor (parent: Config?, path: string, format: (string, string) -> Label)
      ensures this.parent == parent && this.path == path && this.format == format && manifest == None
      ensures depth == if parent == null then 0 else parent.depth + 1
    {
      this.parent, this.path, this.format, this.manifest := parent, path, format, None;
      this.depth := if parent == null then 0 else parent.depth + 1;
    }

    /** The configurations from this one up to the root. */
    ghost predicate Chained()
      decreases depth
    {
      parent != null ==> parent.depth < depth && parent.Chained()
    }

    ghost function Chain(): seq<Config>
      requires Chained()
      decreases depth
    {
      [this] + if parent == null then [] else parent.Chain()
    }

    /** What the chain stands for, given the manifest files on disk. */
    ghost function Levels(files: map<string, Manifest>): seq<Level>
      requires Chained()
      decreases depth
    {
      [Level(if path != "" && path in files then Some(files[path]) else None, format)]
      + if parent == null then [] else parent.Levels(files)
    }

    /** A manifest that has been loaded is the one on disk. */
    ghost predicate Cached(files: map<string, Manifest>)
      reads this
    {
      manifest.Some? ==> path != "" && path in files && manifest.value == files[path]
    }

    /** The loop up the parents, loading each manifest on first use. */
    method FindThirdPartyDependency(files: map<string, Manifest>, name: string) returns (found: Option<(Label, string)>)
      requires Chained() && forall c :: c in Chain() ==> c.Cached(files)
      modifies Chain()
      ensures forall c :: c in Chain() ==> c.Cached(files)
      ensures found == FindThirdParty(Levels(files), name)
    {
      var current: Config? := this;
      while current != null
        invariant current != null ==> current.Chained() && forall c :: c in current.Chain() ==> c in Chain()
        invariant forall c :: c in Chain() ==> c.Cached(files)
        invariant FindThirdParty(Levels(files), name) ==
                  if current == null then None else FindThirdParty(current.Levels(files), name)
        decreases if current == null then 0 else current.depth + 1
      {
        assert current in current.Chain();
        if current.path != "" && current.manifest.None? && current.path in files {
          current.manifest := Some(files[current.path]);
        }
        if current.manifest.Some? && name in current.manifest.value.modules {
          var m := current.manifest.value;
          return Some((current.format(m.repository, m.modules[name]), m.modules[name]));
        }
        current := current.parent;
      }
      found := None;
    }
  }

  // ------------------------------------------------------- possible modules

  /** The names under which type stubs of a distribution are published. */
  function StubNames(distribution: string): seq<string> {
    var d := Lower(distribution);
    [d + "_stubs", d + "_types", "types_" + d, "stubs_" + d]
  }

  function StubsIn(levels: seq<Level>, names: seq<string>): set<Label> {
    set n | n in names && FindThirdParty(levels, n).Some? :: FindThirdParty(levels, n).value.0
  }

  /** A label as the rule refers to it. */
  function Relative(env: Env, l: Label): Label {
    if l.repo == env.from.repo then l.(repo := "") else l
  }

  /** A `gazelle:resolve` target; its repository defaults to the rule's own. */
  function Overriding(env: Env, l: Label): Label {
    if l.repo == "" then l.(repo := env.from.repo) else l
  }

  predicate IsSelfImport(env: Env, r: FindResult) {
    r.target == env.from || env.from in r.embeds
  }

  function Matches(env: Env, name: string): seq<FindResult> {
    if name in env.index then env.index[name] else []
  }

  function SameRoot(env: Env, results: seq<FindResult>): seq<FindResult> {
    if results == [] then []
    else
      var rest := SameRoot(env, results[1..]);
      if StartsWith(results[0].target.pkg, env.projectRoot) then [results[0]] + rest else rest
  }

  function FirstParty(env: Env, name: string): Step {
    var matches := Matches(env, name);
    if matches == [] then (if name in env.stdlib then Settled else Next(env.validate))
    else if exists i :: 0 <= i < |matches| && IsSelfImport(env, matches[i]) then Settled
    else if |matches| == 1 then Found(Relative(env, matches[0].target), {})
    else
      var near := SameRoot(env, matches);
      if |near| == 1 then Found(Relative(env, near[0].target), {}) else Next(true)
  }

  function Candidate(env: Env, name: string): Step {
    if name in env.overrides then
      var target := Overriding(env, env.overrides[name]);
      if target == env.from then Next(false) else Found(Relative(env, target), {})
    else match FindThirdParty(env.levels, name)
      case Some((dep, distribution)) => Found(dep, StubsIn(env.levels, StubNames(distribution)))
      case None => FirstParty(env, name)
  }

  /** The possible modules of an import, longest first; errors count only when
      none of them settles it. */
  function Walk(env: Env, name: string, failed: bool): Resolution
    decreases |name|
  {
    match Candidate(env, name)
    case Found(dep, stubs) => Resolved(dep, stubs)
    case Settled => NoDependency
    case Next(bad) =>
      match Parent(name)
      case None => if failed || bad then Unresolved else NoDependency
      case Some(p) => Walk(env, p, failed || bad)
  }

  /** The loop of `Resolve` for one import. */
  method ResolveImport(env: Env, name: string) returns (r: Resolution)
    ensures r == Walk(env, name, false)
  {
    hide Candidate;
    var candidate, failed := name, false;
    while true
      invariant Walk(env, candidate, failed) == Walk(env, name, false)
      decreases |candidate|
    {
      match Candidate(env, candidate) {
        case Found(dep, stubs) => return Resolved(dep, stubs);
        case Settled => return NoDependency;
        case Next(bad) => failed := failed || bad;
      }
      match Parent(candidate) {
        case None => return if failed then Unresolved else NoDependency;
        case Some(p) => candidate := p;
      }
    }
  }

  // --------------------------------------- resolving by simplified manifests

  function SimplifiedManifest(m: Manifest): Manifest {
    m.(modules := Reduced(m.modules))
  }

  function SimplifiedLevel(l: Level): Level {
    match l.manifest
    case None => l
    case Some(m) => l.(manifest := Some(SimplifiedManifest(m)))
  }

  function SimplifiedLevels(levels: seq<Level>): (r: seq<Level>)
    ensures |r| == |levels|
  {
    seq(|levels|, i requires 0 <= i < |levels| => SimplifiedLevel(levels[i]))
  }

  function Simplified(env: Env): Env {
    env.(levels := SimplifiedLevels(env.levels))
  }

  predicate Lists(l: Level, name: string) {
    l.manifest.Some? && name in l.manifest.value.modules
  }

  /** Listed, and kept by simplification. */
  predicate Keeps(l: Level, name: string) {
    l.manifest.Some? && name in Reduced(l.manifest.value.modules)
  }

  /** The nearest configuration that lists a name. */
  function Nearest(levels: seq<Level>, name: string): (i: Option<nat>)
    ensures i.Some? ==> i.value < |levels| && Lists(levels[i.value], name)
  {
    if levels == [] then None
    else if Lists(levels[0], name) then Some(0)
    else match Nearest(levels[1..], name) case None => None case Some(i) => Some(i + 1)
  }

  lemma {:induction false} FoundNearest(levels: seq<Level>, name: string)
    ensures FindThirdParty(levels, name) ==
            match Nearest(levels, name)
            case None => None
            case Some(i) =>
              var m := levels[i].manifest.value;
              Some((levels[i].format(m.repository, m.modules[name]), m.modules[name]))
  {
    if levels != [] { FoundNearest(levels[1..], name); }
  }

  /** What an entry of a configuration's manifest gives an import. */
  function Gives(levels: seq<Level>, i: nat, name: string): Resolution
    requires i < |levels| && Lists(levels[i], name)
  {
    var m := levels[i].manifest.value;
    Resolved(levels[i].format(m.repository, m.modules[name]), StubsIn(levels, StubNames(m.modules[name])))
  }

  ghost predicate PlainWheels(m: Mapping) {
    "" !in m.Values && forall w :: w in m.Values ==> '.' !in w
  }

  /** Wheel names are not empty and have no dots. */
  ghost predicate AllPlain(levels: seq<Level>) {
    forall l :: l in levels && l.manifest.Some? ==> PlainWheels(l.manifest.value.modules)
  }

  /** Where the resolution over simplified manifests ends: at a kept entry, at an
      override or a first-party rule, or without a dependency. */
  datatype End = AtEntry(level: nat, name: string) | AtRule(dep: Label) | AtNothing

  function Unlisted(env: Env, name: string): Step {
    if name in env.overrides then
      var target := Overriding(env, env.overrides[name]);
      if target == env.from then Next(false) else Found(Relative(env, target), {})
    else FirstParty(env, name)
  }

  /** From a name up, the first that a manifest keeps or that something else
      claims. Only an override goes before a manifest. */
  function EndOf(env: Env, name: string): End
    decreases |name|
  {
    var kept := Nearest(SimplifiedLevels(env.levels), name);
    if name !in env.overrides && kept.Some? then AtEntry(kept.value, name)
    else match Unlisted(env, name)
      case Found(dep, _) => AtRule(dep)
      case Settled => AtNothing
      case Next(_) => match Parent(name) case None => AtNothing case Some(p) => EndOf(env, p)
  }

  /** The possible module that the manifests as they are decide, if any. */
  function Decided(env: Env, name: string): Option<string>
    decreases |name|
  {
    if name !in env.overrides && Nearest(env.levels, name).Some? then Some(name)
    else if Unlisted(env, name).Next? then match Parent(name) case None => None case Some(p) => Decided(env, p)
    else None
  }

  lemma EndIsKept(env: Env, name: string)
    ensures var e := EndOf(env, name);
            e.AtEntry? ==>
              e.level < |env.levels| && Keeps(env.levels[e.level], e.name) && Lists(env.levels[e.level], e.name)
    decreases |name|
  {
    hide Reduced, Unlisted;
    var kept := Nearest(SimplifiedLevels(env.levels), name);
    if kept.Some? { KeptIsListed(env.levels[kept.value], name); }
    if Parent(name).Some? { EndIsKept(env, Parent(name).value); }
  }

  lemma KeptIsListed(l: Level, name: string)
    ensures Lists(SimplifiedLevel(l), name) <==> Keeps(l, name)
    ensures Keeps(l, name) ==>
              Lists(l, name) && SimplifiedLevel(l).manifest.value.modules[name] == l.manifest.value.modules[name]
  {
  }

  /** Simplification keeps names without dots, so stubs are found as before. */
  lemma DotlessKept(m: Mapping, name: string)
    requires '.' !in name && "" !in m.Values
    ensures name in Reduced(m) <==> name in m
  {
    assert NonEmpty(m) == m;
    assert Parent(name) == None;
  }

  lemma {:induction false} DotlessNearest(levels: seq<Level>, name: string)
    requires AllPlain(levels) && '.' !in name
    ensures Nearest(SimplifiedLevels(levels), name) == Nearest(levels, name)
  {
    if levels != [] {
      KeptIsListed(levels[0], name);
      assert levels[0] in levels;
      if levels[0].manifest.Some? { DotlessKept(levels[0].manifest.value.modules, name); }
      hide Reduced, PlainWheels;
      assert SimplifiedLevels(levels)[1..] == SimplifiedLevels(levels[1..]);
      DotlessNearest(levels[1..], name);
    }
  }

  lemma StubNamesDotless(distribution: string)
    requires '.' !in distribution
    ensures forall n :: n in StubNames(distribution) ==> '.' !in n
  {
    var d := Lower(distribution);
    assert forall i :: 0 <= i < |d| ==> d[i] != '.';
    assert '.' !in "_stubs" && '.' !in "_types" && '.' !in "types_" && '.' !in "stubs_";
  }

  lemma StubsKept(levels: seq<Level>, distribution: string)
    requires AllPlain(levels) && '.' !in distribution
    ensures StubsIn(SimplifiedLevels(levels), StubNames(distribution)) == StubsIn(levels, StubNames(distribution))
  {
    StubNamesDotless(distribution);
    var simple := SimplifiedLevels(levels);
    hide Reduced, StubNames, FindThirdParty, PlainWheels;
    forall n | n in StubNames(distribution) ensures FindThirdParty(simple, n) == FindThirdParty(levels, n) {
      DotlessNearest(levels, n);
      FoundNearest(levels, n);
      FoundNearest(simple, n);
      var i := Nearest(levels, n);
      if i.Some? { KeptIsListed(levels[i.value], n); }
    }
  }

  lemma {:induction false} SameRootSame(env: Env, results: seq<FindResult>)
    ensures SameRoot(Simplified(env), results) == SameRoot(env, results)
  {
    if results != [] { SameRootSame(env, results[1..]); }
  }

  lemma UnlistedSame(env: Env, name: string)
    ensures Unlisted(Simplified(env), name) == Unlisted(env, name)
    ensures Unlisted(env, name).Found? ==> Unlisted(env, name).stubs == {}
  {
    SameRootSame(env, Matches(env, name));
    hide SimplifiedLevels, SameRoot;
  }

  /** One candidate, by the nearest manifest that lists it. */
  lemma CandidateIs(env: Env, name: string)
    ensures Candidate(env, name) ==
            var i := Nearest(env.levels, name);
            if name !in env.overrides && i.Some? then
              Found(Gives(env.levels, i.value, name).dep, Gives(env.levels, i.value, name).stubs)
            else Unlisted(env, name)
  {
    FoundNearest(env.levels, name);
    hide FirstParty, StubsIn, FindThirdParty;
  }

  lemma KeptGives(levels: seq<Level>, i: nat, name: string)
    requires AllPlain(levels) && i < |levels| && Lists(SimplifiedLevels(levels)[i], name)
    ensures Lists(levels[i], name) && Gives(SimplifiedLevels(levels), i, name) == Gives(levels, i, name)
  {
    KeptIsListed(levels[i], name);
    var m := levels[i].manifest.value.modules;
    assert levels[i] in levels && m[name] in m.Values;
    StubsKept(levels, m[name]);
    hide StubsIn, StubNames, Reduced;
  }

  /** The walk over simplified manifests comes to what its end gives. */
  lemma {:induction false} WalkEnds(env: Env, name: string, failed: bool)
    requires AllPlain(env.levels)
    ensures var e := EndOf(env, name);
            match e
            case AtEntry(i, n) => i < |env.levels| && Lists(env.levels[i], n)
                && Walk(Simplified(env), name, failed) == Gives(env.levels, i, n)
            case AtRule(dep) => Walk(Simplified(env), name, failed) == Resolved(dep, {})
            case AtNothing => !Walk(Simplified(env), name, failed).Resolved?
    decreases |name|
  {
    var simple := Simplified(env);
    CandidateIs(simple, name);
    UnlistedSame(env, name);
    hide Candidate, Unlisted, Gives, SimplifiedLevels;
    var kept := Nearest(simple.levels, name);
    if name !in env.overrides && kept.Some? {
      KeptGives(env.levels, kept.value, name);
      GivesResolves(env.levels, kept.value, name);
    } else if Unlisted(env, name).Next? && Parent(name).Some? {
      WalkEnds(env, Parent(name).value, failed || Unlisted(env, name).failed);
    }
  }

  lemma GivesResolves(levels: seq<Level>, i: nat, name: string)
    requires i < |levels| && Lists(levels[i], name)
    ensures Gives(levels, i, name).Resolved?
  {
  }

  /** What the walk over the manifests as they are comes to, if they decide. */
  lemma {:induction false} DecidedWalk(env: Env, name: string, failed: bool)
    requires Decided(env, name).Some?
    ensures var n := Decided(env, name).value;
            && n !in env.overrides && Nearest(env.levels, n).Some?
            && Walk(env, name, failed) == Gives(env.levels, Nearest(env.levels, n).value, n)
            && EndOf(env, name) == EndOf(env, n)
    decreases |name|
  {
    CandidateIs(env, name);
    hide Candidate, Unlisted, Gives;
    if name !in env.overrides && Nearest(env.levels, name).Some? {
      GivesResolves(env.levels, Nearest(env.levels, name).value, name);
    } else {
      KeptOnlyListed(env.levels, name);
      hide SimplifiedLevels, Nearest;
      DecidedWalk(env, Parent(name).value, failed || Unlisted(env, name).failed);
    }
  }

  lemma KeptOnlyListed(levels: seq<Level>, name: string)
    ensures Nearest(levels, name).None? ==> Nearest(SimplifiedLevels(levels), name).None?
  {
    var kept := Nearest(SimplifiedLevels(levels), name);
    hide Reduced;
    if kept.Some? {
      KeptIsListed(levels[kept.value], name);
      ListedHasNearest(levels, kept.value, name);
    }
  }

  lemma {:induction false} ListedHasNearest(levels: seq<Level>, i: nat, name: string)
    requires i < |levels| && Lists(levels[i], name)
    ensures Nearest(levels, name).Some?
  {
    if i > 0 { ListedHasNearest(levels[1..], i - 1, name); }
  }

  /** An import that the manifests do not decide is resolved alike. */
  lemma {:induction false} UndecidedAlike(env: Env, name: string, failed: bool)
    requires Decided(env, name) == None
    ensures Walk(Simplified(env), name, failed) == Walk(env, name, failed)
    decreases |name|
  {
    CandidateIs(env, name);
    CandidateIs(Simplified(env), name);
    UnlistedSame(env, name);
    KeptOnlyListed(env.levels, name);
    hide Candidate, Unlisted, Gives, SimplifiedLevels, Nearest;
    if Unlisted(env, name).Next? && Parent(name).Some? {
      UndecidedAlike(env, Parent(name).value, failed || Unlisted(env, name).failed);
    }
  }

  /** What the end of the simplified resolution has to give. */
  ghost predicate SameEnd(env: Env, name: string)
    requires Nearest(env.levels, name).Some?
  {
    var given := Gives(env.levels, Nearest(env.levels, name).value, name);
    match EndOf(env, name)
    case AtEntry(i, n) => i < |env.levels| && Lists(env.levels[i], n) && Gives(env.levels, i, n) == given
    case AtRule(dep) => given == Resolved(dep, {})
    case AtNothing => false
  }

  /** For any import and any number of manifests: resolution agrees exactly when
      the manifests do not decide the import, or the first kept or claimed name from
      the deciding one up gives what the nearest manifest's entry gives. */
  lemma ImportAlikeIff(env: Env, name: string, failed: bool)
    requires AllPlain(env.levels)
    ensures Walk(Simplified(env), name, failed) == Walk(env, name, failed) <==>
            match Decided(env, name)
            case None => true
            case Some(n) => Nearest(env.levels, n).Some? && SameEnd(env, n)
  {
    if Decided(env, name) == None {
      UndecidedAlike(env, name, failed);
    } else {
      DecidedWalk(env, name, failed);
      WalkEnds(env, name, failed);
      var n := Decided(env, name).value;
      GivesResolves(env.levels, Nearest(env.levels, n).value, n);
      hide Walk, Gives, EndOf, Decided, Nearest, Lists;
    }
  }

  /** A kept entry that ends the resolution is what its own manifest looks up. */
  lemma {:induction false} EndLookup(env: Env, name: string)
    requires EndOf(env, name).AtEntry? && forall p :: p <= name ==> p !in env.overrides
    ensures var e := EndOf(env, name);
            && e.level < |env.levels| && Keeps(env.levels[e.level], e.name)
            && var m := Reduced(env.levels[e.level].manifest.value.modules);
            Lookup(m, name) == Some(m[e.name])
    decreases |name|
  {
    EndIsKept(env, name);
    hide Reduced, FirstParty, SimplifiedLevels;
    assert name <= name;
    var kept := Nearest(SimplifiedLevels(env.levels), name);
    if kept.None? {
      var (e, p) := (EndOf(env, name), Parent(name).value);
      assert p <= name;
      EndLookup(env, p);
      if Keeps(env.levels[e.level], name) { KeptHasNearest(env.levels, e.level, name); }
    }
  }

  lemma KeptHasNearest(levels: seq<Level>, i: nat, name: string)
    requires i < |levels| && Keeps(levels[i], name)
    ensures Nearest(SimplifiedLevels(levels), name).Some?
  {
    KeptIsListed(levels[i], name);
    hide Reduced;
    ListedHasNearest(SimplifiedLevels(levels), i, name);
  }

  /** Without overrides an import decided by a manifest can change only when the
      resolution ends in another manifest or at a rule: an entry of the deciding
      manifest itself always gives the same. */
  lemma OwnEntryGivesSame(env: Env, name: string)
    requires AllPlain(env.levels) && (forall p :: p <= name ==> p !in env.overrides)
    requires Nearest(env.levels, name).Some? && EndOf(env, name).AtEntry?
    requires EndOf(env, name).level == Nearest(env.levels, name).value
    ensures SameEnd(env, name)
  {
    EndLookup(env, name);
    EndIsKept(env, name);
    var e := EndOf(env, name);
    assert env.levels[e.level] in env.levels;
    var m := env.levels[e.level].manifest.value.modules;
    SimplifyPreservesLookup(m);
    hide EndOf, Nearest, StubsIn, StubNames, SimplifiedLevels;
    assert Lookup(Reduced(m), name) == Lookup(m, name) == Some(m[name]);
    assert Reduced(m)[e.name] == m[e.name];
  }

  // ------------------------------------------------------- manifests kept apart

  /** From a name that manifest `i` lists up to the entry it keeps for it, nothing
      else claims the names: no override, no kept entry of a nearer manifest, and
      below its own entry no kept entry of a farther one, no first-party rule and no
      standard library module. */
  ghost predicate ReachesOwn(env: Env, i: nat, name: string)
    requires i < |env.levels|
    decreases |name|
  {
    && name !in env.overrides
    && (forall j :: 0 <= j < |env.levels| && (j < i || (i < j && !Keeps(env.levels[i], name))) ==>
         !Keeps(env.levels[j], name))
    && (!Keeps(env.levels[i], name) ==>
          FirstParty(env, name).Next? && match Parent(name) case None => false case Some(p) => ReachesOwn(env, i, p))
  }

  lemma {:induction false} OwnEnd(env: Env, i: nat, name: string)
    requires i < |env.levels| && ReachesOwn(env, i, name)
    ensures var e := EndOf(env, name);
            && e.AtEntry? && e.level == i && env.levels[i].manifest.Some? && Keeps(env.levels[i], e.name)
            && var m := Reduced(env.levels[i].manifest.value.modules); Lookup(m, name) == Some(m[e.name])
    decreases |name|
  {
    NearestKept(env.levels, i, name);
    hide Reduced, Lists, FirstParty, SimplifiedLevels, Nearest;
    if !Keeps(env.levels[i], name) { OwnEnd(env, i, Parent(name).value); }
  }

  lemma NearestKept(levels: seq<Level>, i: nat, name: string)
    requires i < |levels|
    requires forall j :: 0 <= j < |levels| && (j < i || (i < j && !Keeps(levels[i], name))) ==> !Keeps(levels[j], name)
    ensures Nearest(SimplifiedLevels(levels), name) == if Keeps(levels[i], name) then Some(i) else None
  {
    var simple := SimplifiedLevels(levels);
    assert forall j :: 0 <= j < |levels| ==> simple[j] == SimplifiedLevel(levels[j]);
    forall j | 0 <= j < |levels| ensures Lists(simple[j], name) <==> Keeps(levels[j], name) {
      KeptIsListed(levels[j], name);
    }
    hide Keeps, Lists, SimplifiedLevels, SimplifiedLevel;
    if Nearest(simple, name).Some? { NearestIsFirst(simple, name); }
    if Keeps(levels[i], name) { ListedHasNearest(simple, i, name); }
  }

  lemma {:induction false} NearestIsFirst(levels: seq<Level>, name: string)
    requires Nearest(levels, name).Some?
    ensures forall j :: 0 <= j < Nearest(levels, name).value ==> !Lists(levels[j], name)
  {
    hide Lists;
    if !Lists(levels[0], name) { NearestIsFirst(levels[1..], name); }
  }

  /** Over any number of manifests, an import resolves alike when nothing else claims
      the names from the deciding one up to the entry its manifest keeps for it. */
  lemma ApartResolvesAlike(env: Env, name: string, failed: bool)
    requires AllPlain(env.levels)
    requires Decided(env, name).Some? ==>
               var i := Nearest(env.levels, Decided(env, name).value);
                   i.Some? && ReachesOwn(env, i.value, Decided(env, name).value)
    ensures Walk(Simplified(env), name, failed) == Walk(env, name, failed)
  {
    ImportAlikeIff(env, name, failed);
    if Decided(env, name).Some? {
      var n := Decided(env, name).value;
      var i := Nearest(env.levels, n).value;
      OwnEnd(env, i, n);
      EndIsKept(env, n);
      assert env.levels[i] in env.levels;
      var m := env.levels[i].manifest.value.modules;
      SimplifyPreservesLookup(m);
      var e := EndOf(env, n);
      hide EndOf, Decided, Walk, ReachesOwn, Nearest, StubsIn, StubNames, SimplifiedLevels;
      assert Lookup(Reduced(m), n) == Lookup(m, n) == Some(m[n]);
      assert Reduced(m)[e.name] == m[e.name];
    }
  }

  // --------------------------------------------------------------- one manifest

  /** From a listed name up to the kept entry that stands for it, nothing else
      claims the names: no override, and below the kept one no first-party rule
      and no standard library module. */
  ghost predicate ReachesKept(env: Env, m: Mapping, name: string)
    decreases |name|
  {
    && name !in env.overrides
    && (name !in Reduced(m) ==>
          FirstParty(env, name).Next? && match Parent(name) case None => false case Some(p) => ReachesKept(env, m, p))
  }

  /** One configuration of the chain has a manifest, at index `k`. */
  ghost predicate OneManifest(levels: seq<Level>, k: nat) {
    k < |levels| && levels[k].manifest.Some? && forall i :: 0 <= i < |levels| && i != k ==> levels[i].manifest.None?
  }

  lemma OneNearest(levels: seq<Level>, k: nat, name: string)
    requires OneManifest(levels, k)
    ensures Nearest(levels, name) == (if name in levels[k].manifest.value.modules then Some(k) else None)
  {
    if Lists(levels[k], name) { ListedHasNearest(levels, k, name); }
  }

  lemma {:induction false} KeptReachesOwn(env: Env, k: nat, name: string)
    requires OneManifest(env.levels, k) && ReachesKept(env, env.levels[k].manifest.value.modules, name)
    ensures ReachesOwn(env, k, name)
    decreases |name|
  {
    hide Reduced, FirstParty;
    if name !in Reduced(env.levels[k].manifest.value.modules) { KeptReachesOwn(env, k, Parent(name).value); }
  }

  /** With one manifest and wheel names without dots, an import resolves to the
      same label and stubs under the simplified manifest, provided nothing else
      claims the names from the deciding one up to the kept one. */
  lemma SimplifiedResolvesAlike(env: Env, k: nat, name: string, failed: bool)
    requires OneManifest(env.levels, k) && PlainWheels(env.levels[k].manifest.value.modules)
    requires Decided(env, name).Some? ==>
               ReachesKept(env, env.levels[k].manifest.value.modules, Decided(env, name).value)
    ensures Walk(Simplified(env), name, failed) == Walk(env, name, failed)
  {
    assert AllPlain(env.levels) by { hide PlainWheels; }
    if Decided(env, name).Some? {
      DecidedWalk(env, name, failed);
      var n := Decided(env, name).value;
      OneNearest(env.levels, k, n);
      KeptReachesOwn(env, k, n);
    }
    hide Walk, Decided, Nearest, ReachesOwn, AllPlain;
    ApartResolvesAlike(env, name, failed);
  }

  // --------------------------------------------------------------- two manifests

  /** Two configurations, the nearer of which drops an entry that the other has
      with another wheel. */
  function TwoLevels(format: (string, string) -> Label): seq<Level> {
    [Level(Some(Manifest(map["a" := "w1", "a.b" := "w1"], "pip")), format),
        Level(Some(Manifest(map["a.b" := "w2"], "pip")), format)]
  }

  lemma TwoLevelsKeep(format: (string, string) -> Label)
    ensures var levels := TwoLevels(format);
            AllPlain(levels) && Nearest(levels, "a.b") == Some(0) && Nearest(SimplifiedLevels(levels), "a.b") == Some(1)
  {
    var levels := TwoLevels(format);
    var child, parent := levels[0].manifest.value.modules, levels[1].manifest.value.modules;
    assert "a.b"[..1] == "a" && LastIndexOf("a.b", '.') == 1;
    assert NonEmpty(child) == child && NonEmpty(parent) == parent && Parent("a.b") == Some("a");
    assert LastIndexOf("a", '.') == -1;
    assert "a.b" !in Reduced(child);
    assert "a.b" in Reduced(parent) by { assert "a" !in parent && Inherited(parent, "a.b") == None; }
    hide Reduced;
    var simple := SimplifiedLevels(levels);
    KeptIsListed(levels[0], "a.b");
    KeptIsListed(levels[1], "a.b");
    assert simple[1..][0] == simple[1];
  }

  /** With two manifests an import can resolve to another wheel: the nearer one's
      dropped entry lets the farther one's through. */
  lemma TwoManifestsDiffer(env: Env, failed: bool)
    requires |env.levels| == 2 && env.levels == TwoLevels(env.levels[0].format) && "a.b" !in env.overrides
    requires env.levels[0].format("pip", "w1") != env.levels[0].format("pip", "w2")
    ensures Walk(Simplified(env), "a.b", failed) != Walk(env, "a.b", failed)
  {
    TwoLevelsKeep(env.levels[0].format);
    ImportAlikeIff(env, "a.b", failed);
    hide Walk, StubsIn, StubNames, SimplifiedLevels, Nearest, AllPlain;
    assert EndOf(env, "a.b") == AtEntry(1, "a.b");
  }
}
