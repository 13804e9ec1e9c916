/** From the parsed files of a target to its `deps` and `pyi_deps`: three merge
    stages whose result does not depend on the order files arrive in. */
module Dependencies {
  import opened Text
  import opened Sorting
  import opened TypeChecking
  import opened RelativeImports
  import Resolver

  /** A tree set of modules, compared by name. */
  type ModuleSet = map<string, Module>

  /** `addModuleToTreeSet`; adding an equal element replaces it. */
  function AddModule(s: ModuleSet, m: Module): ModuleSet {
    if m.typeCheckingOnly && m.name in s then s else s[m.name := m]
  }

  function AddModules(s: ModuleSet, ms: seq<Module>): ModuleSet {
    if ms == [] then s else AddModule(AddModules(s, ms[..|ms| - 1]), ms[|ms| - 1])
  }

  /** A set that stands for some imports: one entry per name, seen by type
      checkers only when every import of that name is. */
  ghost predicate Stands(s: ModuleSet, imports: set<Module>) {
    && (forall n :: n in s ==> s[n] in imports && s[n].name == n)
    && (forall m :: m in imports ==> m.name in s)
    && (forall m :: m in imports && !m.typeCheckingOnly ==> m.name in s && !s[m.name].typeCheckingOnly)
  }

  lemma AddStands(s: ModuleSet, imports: set<Module>, m: Module)
    requires Stands(s, imports)
    ensures Stands(AddModule(s, m), imports + {m})
  {
  }

  lemma {:induction false} AddAllStand(s: ModuleSet, imports: set<Module>, ms: seq<Module>)
    requires Stands(s, imports)
    ensures Stands(AddModules(s, ms), imports + set m | m in ms)
  {
    hide Stands, AddModule;
    if ms == [] {
      assert imports + (set m | m in ms) == imports;
    } else {
      var front := ms[..|ms| - 1];
      AddAllStand(s, imports, front);
      AddStands(AddModules(s, front), imports + (set m | m in front), ms[|ms| - 1]);
      assert imports + (set m | m in ms) == imports + (set m | m in front) + {ms[|ms| - 1]};
    }
  }

  // ------------------------------------------------------------ parser.parse

  /** What a file's parser sends back, with the names its comments ignore. */
  datatype ParserOutput = ParserOutput(file: string, hasMain: bool, modules: seq<Module>, ignore: set<string>)

  predicate Ignored(m: Module, annotated: set<string>, directives: set<string>) {
    m.name in annotated || m.from in annotated || m.name in directives || m.from in directives
  }

  function Kept(ms: seq<Module>, annotated: set<string>, directives: set<string>): seq<Module> {
    if ms == [] then []
    else
      var front := Kept(ms[..|ms| - 1], annotated, directives);
      if Ignored(ms[|ms| - 1], annotated, directives) then front else front + [ms[|ms| - 1]]
  }

  function AllKept(results: seq<ParserOutput>, directives: set<string>): seq<Module> {
    if results == [] then []
    else
      var last := results[|results| - 1];
      AllKept(results[..|results| - 1], directives) + Kept(last.modules, last.ignore, directives)
  }

  /** The modules of each file with a main block, by file. */
  function MainModules(results: seq<ParserOutput>, directives: set<string>): map<string, ModuleSet> {
    if results == [] then map[]
    else
      var front, last := MainModules(results[..|results| - 1], directives), results[|results| - 1];
      if last.hasMain then front[last.file := AddModules(map[], Kept(last.modules, last.ignore, directives))] else front
  }

  lemma NothingAdded()
    ensures AddModules(map[], []) == map[]
  {
  }

  lemma {:induction false} AddConcat(s: ModuleSet, a: seq<Module>, b: seq<Module>)
    ensures AddModules(s, a + b) == AddModules(AddModules(s, a), b)
  {
    hide AddModule;
    if b == [] {
      assert a + b == a;
    } else {
      AddConcat(s, a, b[..|b| - 1]);
      assert (a + b)[..|a + b| - 1] == a + b[..|b| - 1];
    }
  }

  class Python3Parser {
    const directives: set<string>

    constructor (directives: set<string>)
      ensures this.directives == directives
    {
      this.directives := directives;
    }

    /** The result loop of `parse`, draining the channel in arrival order. */
    method Collect(results: seq<ParserOutput>) returns (modules: ModuleSet, mainModules: map<string, ModuleSet>)
      ensures modules == AddModules(map[], AllKept(results, directives))
      ensures mainModules == MainModules(results, directives)
    {
      hide AddModule, AddModules, Ignored, Kept;
      modules, mainModules := map[], map[];
      assert AddModules(map[], []) == map[] by { NothingAdded(); }
      for i := 0 to |results|
        invariant modules == AddModules(map[], AllKept(results[..i], directives))
        invariant mainModules == MainModules(results[..i], directives)
      {
        assert results[..i + 1][..i] == results[..i];
        AddConcat(map[], AllKept(results[..i], directives), Kept(results[i].modules, results[i].ignore, directives));
        var own: ModuleSet;
        modules, own := AddFile(modules, results[i]);
        if results[i].hasMain { mainModules := mainModules[results[i].file := own]; }
      }
      assert results[..|results|] == results;
    }

    method AddFile(modules: ModuleSet, r: ParserOutput) returns (all: ModuleSet, own: ModuleSet)
      ensures all == AddModules(modules, Kept(r.modules, r.ignore, directives))
      ensures own == AddModules(map[], Kept(r.modules, r.ignore, directives))
    {
      hide AddModule, AddModules, Ignored, Kept;
      all, own := modules, map[];
      KeptNone(r.ignore, directives);
      AddNone(modules);
      AddNone(map[]);
      for i := 0 to |r.modules|
        invariant all == AddModules(modules, Kept(r.modules[..i], r.ignore, directives))
        invariant own == AddModules(map[], Kept(r.modules[..i], r.ignore, directives))
      {
        KeptStep(r.modules, i, r.ignore, directives);
        if Ignored(r.modules[i], r.ignore, directives) { continue; }
        ghost var front := Kept(r.modules[..i], r.ignore, directives);
        AddStep(modules, front, r.modules[i]);
        AddStep(map[], front, r.modules[i]);
        all, own := AddModule(all, r.modules[i]), AddModule(own, r.modules[i]);
      }
      assert r.modules[..|r.modules|] == r.modules;
    }
  }

  lemma KeptNone(annotated: set<string>, directives: set<string>)
    ensures Kept([], annotated, directives) == []
  {
  }

  lemma KeptStep(ms: seq<Module>, i: nat, annotated: set<string>, directives: set<string>)
    requires i < |ms|
    ensures Kept(ms[..i + 1], annotated, directives)
            == if Ignored(ms[i], annotated, directives) then Kept(ms[..i], annotated, directives)
               else Kept(ms[..i], annotated, directives) + [ms[i]]
  {
    hide Ignored;
    assert ms[..i + 1][..i] == ms[..i];
  }

  lemma AddNone(s: ModuleSet)
    ensures AddModules(s, []) == s
  {
  }

  lemma AddStep(s: ModuleSet, ms: seq<Module>, m: Module)
    ensures AddModules(s, ms + [m]) == AddModule(AddModules(s, ms), m)
  {
    hide AddModule;
    assert (ms + [m])[..|ms|] == ms;
  }

  lemma {:induction false} KeptAre(ms: seq<Module>, annotated: set<string>, directives: set<string>, m: Module)
    ensures m in Kept(ms, annotated, directives) <==> m in ms && !Ignored(m, annotated, directives)
  {
    hide Ignored;
    if ms != [] {
      KeptAre(ms[..|ms| - 1], annotated, directives, m);
      assert ms == ms[..|ms| - 1] + [ms[|ms| - 1]];
    }
  }

  /** An import is dropped when its name, or the package it is from, is ignored by an
      annotation or by a directive, and kept otherwise. */
  lemma KeptIff(ms: seq<Module>, annotated: set<string>, directives: set<string>, m: Module)
    ensures m in Kept(ms, annotated, directives) <==>
              && m in ms && m.name !in annotated && m.from !in annotated
              && m.name !in directives && m.from !in directives
  {
    KeptAre(ms, annotated, directives, m);
    hide Kept;
  }

  /** An import that no annotation of its file and no directive ignores. */
  ghost predicate Counts(results: seq<ParserOutput>, directives: set<string>, m: Module) {
    exists r :: r in results && m in r.modules && !Ignored(m, r.ignore, directives)
  }

  lemma {:induction false} AllKeptAre(results: seq<ParserOutput>, directives: set<string>, m: Module)
    ensures m in AllKept(results, directives) <==> Counts(results, directives, m)
  {
    hide Ignored, Kept;
    if results != [] {
      var front, last := results[..|results| - 1], results[|results| - 1];
      assert results == front + [last];
      AllKeptAre(front, directives, m);
      KeptAre(last.modules, last.ignore, directives, m);
      if Counts(results, directives, m) && !Counts(front, directives, m) {
        var r :| r in results && m in r.modules && !Ignored(m, r.ignore, directives);
        assert r == last;
      }
    }
  }

  /** The last parsed file of that name that has a main block. */
  ghost predicate IsLastMain(results: seq<ParserOutput>, i: nat, file: string) {
    && i < |results| && results[i].hasMain && results[i].file == file
    && forall j :: i < j < |results| && results[j].hasMain ==> results[j].file != file
  }

  /** Each file with a main block has its own set, of the imports in it that nothing
      ignores. */
  lemma {:induction false} MainModulesAre(results: seq<ParserOutput>, directives: set<string>, file: string, i: nat)
    ensures file in MainModules(results, directives) <==> exists k: nat :: IsLastMain(results, k, file)
    ensures IsLastMain(results, i, file) ==>
              MainModules(results, directives)[file]
                  == AddModules(map[], Kept(results[i].modules, results[i].ignore, directives))
  {
    hide AddModules, Kept;
    if results != [] {
      var (front, last, n) := (results[..|results| - 1], results[|results| - 1], |results| - 1);
      var own := last.hasMain && last.file == file;
      assert IsLastMain(results, n, file) <==> own;
      forall k: nat | k < n ensures IsLastMain(results, k, file) <==> IsLastMain(front, k, file) && !own {}
      MainModulesAre(front, directives, file, i);
      if k: nat :| IsLastMain(front, k, file) { assert k < n && (own || IsLastMain(results, k, file)); }
      if k: nat :| IsLastMain(results, k, file) { assert k == n || IsLastMain(front, k, file); }
    }
  }

  // ----------------------------------------------------------- targetBuilder

  class TargetBuilder {
    const pythonPackage: string
    const siblings: set<string>
    const resolveSiblingImports: bool
    var deps: ModuleSet

    constructor (pythonPackage: string, siblings: set<string>, resolveSiblingImports: bool)
      ensures this.pythonPackage == pythonPackage && this.siblings == siblings
      ensures this.resolveSiblingImports == resolveSiblingImports && deps == map[]
    {
      this.pythonPackage, this.siblings, this.resolveSiblingImports, deps :=
          pythonPackage, siblings, resolveSiblingImports, map[];
    }

    /** `addModuleDependency`: with sibling resolution on, an import of another
        file of the package becomes absolute. */
    method AddModuleDependency(dep: Module)
      modifies this
      ensures deps == AddModule(old(deps), Renamed(dep, pythonPackage, siblings, resolveSiblingImports))
    {
      var fileName := dep.name + ".py";
      if dep.from != "" { fileName := dep.from + ".py"; }
      var added := dep;
      if resolveSiblingImports && fileName in siblings && fileName != BaseName(dep.file) {
        added := dep.(name := ImportSpec(pythonPackage, fileName));
      }
      deps := if added.typeCheckingOnly && added.name in deps then deps else deps[added.name := added];
    }

    /** `addModuleDependencies`, over the set in its order. */
    method AddModuleDependencies(modules: ModuleSet)
      modifies this
      ensures deps == AddModules(old(deps),
              AllRenamed(InOrder(modules), pythonPackage, siblings, resolveSiblingImports))
    {
      hide AddModule, Renamed;
      var names := Sorted(modules.Keys);
      ghost var all := AllRenamed(InOrder(modules), pythonPackage, siblings, resolveSiblingImports);
      for i := 0 to |names|
        invariant deps == AddModules(old(deps), all[..i])
      {
        assert all[..i + 1][..i] == all[..i];
        AddModuleDependency(modules[names[i]]);
      }
      assert all[..|all|] == all;
    }
  }

  function FileOf(m: Module): string {
    (if m.from != "" then m.from else m.name) + ".py"
  }

  function BaseName(path: string): string {
    path[LastIndexOf(path, '/') + 1..]
  }

  /** `importSpecFromSrc` for a file directly in the target's package. */
  function ImportSpec(pythonPackage: string, file: string): string {
    if file == "__init__.py" && pythonPackage != "" then pythonPackage
    else
      var name := if EndsWith(file, ".py") then file[..|file| - 3] else file;
      if pythonPackage == "" then name else pythonPackage + "." + name
  }

  function Renamed(m: Module, pythonPackage: string, siblings: set<string>, on: bool): Module {
    if on && FileOf(m) in siblings && FileOf(m) != BaseName(m.file)
        then m.(name := ImportSpec(pythonPackage, FileOf(m))) else m
  }

  function AllRenamed(ms: seq<Module>, pythonPackage: string, siblings: set<string>, on: bool): (r: seq<Module>)
    ensures |r| == |ms|
  {
    seq(|ms|, i requires 0 <= i < |ms| => Renamed(ms[i], pythonPackage, siblings, on))
  }

  function InOrder(modules: ModuleSet): (ms: seq<Module>)
    ensures forall m :: m in ms <==> m in modules.Values
  {
    var names := Sorted(modules.Keys);
    var ms := seq(|names|, i requires 0 <= i < |names| => assert names[i] in names; modules[names[i]]);
    assert forall m :: m in modules.Values ==> m in ms by {
      forall m | m in modules.Values ensures m in ms {
        var n :| n in modules && modules[n] == m;
        assert n in names;
        var i :| 0 <= i < |names| && names[i] == n;
        assert ms[i] == m;
      }
    }
    ms
  }

  /** Sets that stand for some imports are merged into one that stands for all. */
  lemma MergedStands(a: ModuleSet, x: set<Module>, b: ModuleSet, y: set<Module>)
    requires Stands(a, x) && Stands(b, y)
    ensures Stands(AddModules(a, InOrder(b)), x + y)
  {
    hide AddModules;
    var ms := InOrder(b);
    AddAllStand(a, x, ms);
    var s := AddModules(a, ms);
    forall m | m in x + y
      ensures m.name in s
      ensures !m.typeCheckingOnly ==> !s[m.name].typeCheckingOnly
    {
      if m in y {
        assert b[m.name] in ms;
      }
    }
  }

  // ----------------------------------------------------------- sibling rules

  /** A rule of the package with sources directly in it. */
  datatype Rule = Rule(target: Resolver.Label, srcs: seq<string>)

  /** `Imports`: the import specs under which a rule is indexed. With one rule per
      file, an `__init__.py` that goes with another file is passed over. */
  function Provides(pythonPackage: string, rule: Rule, perFile: bool): set<string> {
    set src | src in rule.srcs && EndsWith(src, ".py") && !(perFile && |rule.srcs| > 1 && src == "__init__.py")
      :: ImportSpec(pythonPackage, src)
  }

  /** The rules that provide a name, as the index finds them. */
  function Providers(pythonPackage: string, rules: seq<Rule>, perFile: bool, name: string): seq<Resolver.FindResult> {
    if rules == [] then []
    else
      var rest := Providers(pythonPackage, rules[1..], perFile, name);
      if name in Provides(pythonPackage, rules[0], perFile) then [Resolver.FindResult(rules[0].target, {})] + rest
          else rest
  }

  lemma {:induction false} ProvidersAre(pythonPackage: string, rules: seq<Rule>, perFile: bool, name: string, l: Label)
    ensures (exists p :: p in Providers(pythonPackage, rules, perFile, name) && p.target == l) <==>
              exists rule :: rule in rules && rule.target == l && name in Provides(pythonPackage, rule, perFile)
  {
    hide Provides;
    if rules != [] {
      ProvidersAre(pythonPackage, rules[1..], perFile, name, l);
      assert rules == [rules[0]] + rules[1..];
      assert name in Provides(pythonPackage, rules[0], perFile) ==>
          Resolver.FindResult(rules[0].target, {}) in Providers(pythonPackage, rules, perFile, name);
    }
  }

  /** Different files of a package have different import specs. */
  lemma ImportSpecInjective(pythonPackage: string, f: string, g: string)
    requires EndsWith(f, ".py") && EndsWith(g, ".py") && ImportSpec(pythonPackage, f) == ImportSpec(pythonPackage, g)
    ensures f == g
  {
    assert f == f[..|f| - 3] + ".py" && g == g[..|g| - 3] + ".py";
    if pythonPackage != "" {
      var n := |pythonPackage| + 1;
      if f != "__init__.py" && g != "__init__.py" {
        assert f[..|f| - 3] == ImportSpec(pythonPackage, f)[n..] && g[..|g| - 3] == ImportSpec(pythonPackage, g)[n..];
      }
    }
  }

  /** No rule of the package but `rules[k]` has the file among its sources. */
  ghost predicate OnlyIn(rules: seq<Rule>, k: nat, file: string) {
    k < |rules| && forall i :: 0 <= i < |rules| ==> (file in rules[i].srcs <==> i == k)
  }

  lemma {:induction false} OneProvider(pythonPackage: string, rules: seq<Rule>, perFile: bool, k: nat, file: string)
    requires OnlyIn(rules, k, file) && EndsWith(file, ".py")
             && !(perFile && |rules[k].srcs| > 1 && file == "__init__.py")
    ensures Providers(pythonPackage, rules, perFile, ImportSpec(pythonPackage, file))
            == [Resolver.FindResult(rules[k].target, {})]
  {
    ProvidesIs(pythonPackage, rules[0], perFile, file);
    hide Provides, ImportSpec, EndsWith;
    if k > 0 {
      assert OnlyIn(rules[1..], k - 1, file);
      OneProvider(pythonPackage, rules[1..], perFile, k - 1, file);
    } else {
      NoProvider(pythonPackage, rules[1..], perFile, file);
    }
  }

  lemma ProvidesIs(pythonPackage: string, rule: Rule, perFile: bool, file: string)
    requires EndsWith(file, ".py")
    ensures ImportSpec(pythonPackage, file) in Provides(pythonPackage, rule, perFile) <==>
              file in rule.srcs && !(perFile && |rule.srcs| > 1 && file == "__init__.py")
  {
    hide ImportSpec;
    forall src | src in rule.srcs && EndsWith(src, ".py")
        && ImportSpec(pythonPackage, src) == ImportSpec(pythonPackage, file)
      ensures src == file
    {
      ImportSpecInjective(pythonPackage, src, file);
    }
  }

  lemma {:induction false} NoProvider(pythonPackage: string, rules: seq<Rule>, perFile: bool, file: string)
    requires EndsWith(file, ".py") && forall r :: r in rules ==> file !in r.srcs
    ensures Providers(pythonPackage, rules, perFile, ImportSpec(pythonPackage, file)) == []
  {
    if rules != [] {
      ProvidesIs(pythonPackage, rules[0], perFile, file);
      hide Provides, ImportSpec, EndsWith;
      assert rules == [rules[0]] + rules[1..];
      NoProvider(pythonPackage, rules[1..], perFile, file);
    }
  }

  /** What sibling resolution is for: the import of another file of the package is
      named as the file's rule is indexed. So it resolves to that rule, or to no
      dependency within the rule itself, unless an override, a manifest or a rule
      of another package claims the name. */
  lemma SiblingResolves(env: Resolver.Env, pythonPackage: string, rules: seq<Rule>, perFile: bool, k: nat,
                        m: Module, siblings: set<string>, failed: bool)
    requires FileOf(m) in siblings && FileOf(m) != BaseName(m.file) && OnlyIn(rules, k, FileOf(m))
    requires !(perFile && |rules[k].srcs| > 1 && FileOf(m) == "__init__.py")
    requires var name := Renamed(m, pythonPackage, siblings, true).name;
             && name !in env.overrides && Resolver.FindThirdParty(env.levels, name) == None
             && Resolver.Matches(env, name) == Providers(pythonPackage, rules, perFile, name)
    ensures var name := Renamed(m, pythonPackage, siblings, true).name;
            Resolver.Walk(env, name, failed) ==
            if rules[k].target == env.from then Resolver.NoDependency
                else Resolver.Resolved(Resolver.Relative(env, rules[k].target), {})
  {
    var file := FileOf(m);
    assert file[|file| - 3..] == ".py";
    OneProvider(pythonPackage, rules, perFile, k, file);
    hide ImportSpec, Provides, Providers, FileOf, BaseName, OnlyIn, EndsWith, Resolver.FindThirdParty,
         Resolver.SameRoot, Resolver.Matches;
    var name := Renamed(m, pythonPackage, siblings, true).name;
    var matches := Resolver.Matches(env, name);
    assert matches == [Resolver.FindResult(rules[k].target, {})];
    assert (exists i :: 0 <= i < |matches| && Resolver.IsSelfImport(env, matches[i])) <==>
             Resolver.IsSelfImport(env, matches[0]);
  }

  // ----------------------------------------------------------------- Resolve

  type Label = Resolver.Label

  datatype Deps = Deps(deps: set<Label>, pyiDeps: set<Label>)

  /** `addDependency`. */
  function AddDependency(d: Deps, dep: Label, typeCheckingOnly: bool): Deps {
    if typeCheckingOnly then (if dep in d.deps then d else d.(pyiDeps := d.pyiDeps + {dep}))
    else Deps(d.deps + {dep}, d.pyiDeps - {dep})
  }

  /** How a rule resolves imports; relative ones are passed over unless allowed. */
  datatype Resolving = Resolving(env: Resolver.Env, relative: bool)

  function Target(r: Resolving, m: Module): Resolver.Resolution {
    match Asked(r.env.from.pkg, r.relative, m)
    case None => Resolver.NoDependency
    case Some(name) => Resolver.Walk(r.env, name, false)
  }

  lemma OneTarget(r: Resolving, m: Module, n: Module)
    requires m.name == n.name && Origin(m) == Origin(n)
    ensures Target(r, m) == Target(r, n)
  {
    OriginDecides(r.env.from.pkg, r.relative, m, n);
  }

  /** The dependencies that some imports ask for: in `deps` is what an import that
      is not for type checkers resolves to, in `pyiDeps` what is not there and type
      checkers are to see. */
  ghost predicate Exactly(d: Deps, r: Resolving, imports: set<Module>) {
    && (forall l :: l in d.deps <==> exists m :: m in imports && !m.typeCheckingOnly && DependsOn(r, m, l))
    && (forall l :: l in d.pyiDeps <==> l !in d.deps && exists m :: m in imports && SeenByCheckers(r, m, l))
  }

  ghost predicate DependsOn(r: Resolving, m: Module, l: Label) {
    Target(r, m).Resolved? && Target(r, m).dep == l
  }

  ghost predicate SeenByCheckers(r: Resolving, m: Module, l: Label) {
    Target(r, m).Resolved? && ((m.typeCheckingOnly && Target(r, m).dep == l) || l in Target(r, m).stubs)
  }

  /** One import's additions. */
  function AddResolved(d: Deps, dep: Label, typeCheckingOnly: bool, stubs: set<Label>): Deps {
    var e := AddDependency(d, dep, typeCheckingOnly);
    e.(pyiDeps := e.pyiDeps + (stubs - e.deps))
  }

  method AddStubs(d: Deps, stubs: set<Label>) returns (e: Deps)
    ensures e == d.(pyiDeps := d.pyiDeps + (stubs - d.deps))
  {
    e := d;
    var rest := stubs;
    while rest != {}
      invariant rest <= stubs && e == d.(pyiDeps := d.pyiDeps + (stubs - rest - d.deps))
      decreases |rest|
    {
      var l :| l in rest;
      rest := rest - {l};
      e := AddDependency(e, l, true);
    }
  }

  lemma ExactStep(d: Deps, r: Resolving, ms: set<Module>, m: Module)
    requires Exactly(d, r, ms)
    ensures var t := Target(r, m);
            Exactly(if t.Resolved? then AddResolved(d, t.dep, m.typeCheckingOnly, t.stubs) else d, r, ms + {m})
  {
    hide Target;
    var t := Target(r, m);
    var e := if t.Resolved? then AddResolved(d, t.dep, m.typeCheckingOnly, t.stubs) else d;
    forall l ensures l in e.deps <==> exists x :: x in ms + {m} && !x.typeCheckingOnly && DependsOn(r, x, l) {
      if l in e.deps && l !in d.deps { assert m in ms + {m} && DependsOn(r, m, l); }
      if l in d.deps {
        var x :| x in ms && !x.typeCheckingOnly && DependsOn(r, x, l);
        assert x in ms + {m};
      }
    }
    forall l ensures l in e.pyiDeps <==> l !in e.deps && exists x :: x in ms + {m} && SeenByCheckers(r, x, l) {
      if l in e.pyiDeps && l !in d.pyiDeps { assert m in ms + {m} && SeenByCheckers(r, m, l); }
      if l in d.pyiDeps {
        var x :| x in ms && SeenByCheckers(r, x, l);
        assert x in ms + {m};
      }
    }
  }

  /** The module loop of `Resolve`; `fatal` when some import is unresolved. */
  method ResolveModules(r: Resolving, modules: ModuleSet) returns (d: Deps, fatal: bool)
    ensures Exactly(d, r, modules.Values)
    ensures fatal <==> exists m :: m in modules.Values && Target(r, m).Unresolved?
  {
    hide Exactly, Sorted, Resolver.Walk;
    d, fatal := Deps({}, {}), false;
    var names := Sorted(modules.Keys);
    ghost var handled: set<Module> := {};
    NothingExact(r);
    for i := 0 to |names|
      invariant handled == set k | 0 <= k < i :: modules[names[k]]
      invariant Exactly(d, r, handled)
      invariant fatal <==> exists m :: m in handled && Target(r, m).Unresolved?
    {
      assert names[i] in names;
      var m := modules[names[i]];
      ExactStep(d, r, handled, m);
      handled := handled + {m};
      var name := m.name;
      if StartsWith(m.from, ".") {
        if !r.relative { continue; }
        match Absolute(r.env.from.pkg, m.from, name) {
          case None => continue;
          case Some(absolute) => name := absolute;
        }
      }
      var found := Resolver.ResolveImport(r.env, name);
      match found {
        case Resolved(dep, stubs) =>
          d := AddDependency(d, dep, m.typeCheckingOnly);
          d := AddStubs(d, stubs);
        case NoDependency =>
        case Unresolved => fatal := true;
      }
    }
    assert handled == modules.Values by {
      forall m | m in modules.Values ensures m in handled {
        var n :| n in modules && modules[n] == m;
        assert n in names;
      }
      forall m | m in handled ensures m in modules.Values {
        var k :| 0 <= k < |names| && modules[names[k]] == m;
        assert names[k] in names;
      }
    }
    assert forall n :: n in modules ==> n in names;
  }

  lemma NothingExact(r: Resolving)
    ensures Exactly(Deps({}, {}), r, {})
  {
  }

  // ---------------------------------------------------------- the whole chain

  function Collected(results: seq<ParserOutput>, directives: set<string>): ModuleSet {
    AddModules(map[], AllKept(results, directives))
  }

  /** The collected set stands for exactly the imports that count. */
  lemma CollectedStands(results: seq<ParserOutput>, directives: set<string>)
    ensures Stands(Collected(results, directives), set m | m in AllKept(results, directives))
  {
    var ms := AllKept(results, directives);
    assert Stands(map[], {});
    hide Stands, AddModules, AllKept;
    AddAllStand(map[], {}, ms);
    assert {} + (set m | m in ms) == set m | m in ms;
  }

  /** One entry per name is as good as all imports of that name. */
  lemma StandsIsEnough(s: ModuleSet, imports: set<Module>, r: Resolving, d: Deps)
    requires Stands(s, imports) && ByName(imports) && Exactly(d, r, s.Values)
    ensures Exactly(d, r, imports)
  {
    hide Target, Exactly;
    forall x | x in imports ensures exists y :: y in s.Values && StandsFor(y, x) {
      assert s[x.name] in s.Values && StandsFor(s[x.name], x);
    }
    FewIsEnough(s.Values, imports, r, d);
  }

  /** `y` stands for `x`: it asks for the same, and is seen by type checkers only if
      `x` is. */
  predicate StandsFor(y: Module, x: Module) {
    y.name == x.name && Origin(y) == Origin(x) && (y.typeCheckingOnly ==> x.typeCheckingOnly)
  }

  lemma FewIsEnough(few: set<Module>, all: set<Module>, r: Resolving, d: Deps)
    requires few <= all && Exactly(d, r, few) && forall x :: x in all ==> exists y :: y in few && StandsFor(y, x)
    ensures Exactly(d, r, all)
  {
    hide DependsOn, SeenByCheckers, StandsFor;
    forall l, x | x in all
      ensures !x.typeCheckingOnly && DependsOn(r, x, l) ==> l in d.deps
      ensures SeenByCheckers(r, x, l) ==> l in d.deps || l in d.pyiDeps
    {
      var y :| y in few && StandsFor(y, x);
      StandInAsks(r, y, x, l);
    }
  }

  lemma StandInAsks(r: Resolving, y: Module, x: Module, l: Label)
    requires StandsFor(y, x)
    ensures !x.typeCheckingOnly && DependsOn(r, x, l) ==> !y.typeCheckingOnly && DependsOn(r, y, l)
    ensures SeenByCheckers(r, x, l) ==> SeenByCheckers(r, y, l) || (!y.typeCheckingOnly && DependsOn(r, y, l))
  {
    OneTarget(r, x, y);
    hide Target;
  }

  /** The imports of a target that count, as a set. */
  ghost predicate AreImports(results: seq<ParserOutput>, directives: set<string>, imports: set<Module>) {
    forall m :: m in imports <==> Counts(results, directives, m)
  }

  /** After the module loop a label is in `deps` exactly when some counted import
      outside type-checking blocks resolves to it, and in `pyiDeps` exactly when
      it is not in `deps` and a type-checking import or a stub asks for it. */
  lemma DepsAreExact(results: seq<ParserOutput>, directives: set<string>, imports: set<Module>, r: Resolving, d: Deps)
    requires AreImports(results, directives, imports) && forall m :: m in imports ==> Shaped(m)
    requires Exactly(d, r, AddModules(map[], InOrder(Collected(results, directives))).Values)
    ensures Exactly(d, r, imports) && d.deps !! d.pyiDeps
  {
    hide *;
    ShapedByName(imports);
    CollectedStands(results, directives);
    KeptAreImports(results, directives, imports);
    var s := Collected(results, directives);
    NothingStands();
    MergedStands(map[], {}, s, imports);
    assert {} + imports == imports;
    StandsIsEnough(AddModules(map[], InOrder(s)), imports, r, d);
    ExactIsDisjoint(d, r, imports);
  }

  lemma KeptAreImports(results: seq<ParserOutput>, directives: set<string>, imports: set<Module>)
    requires AreImports(results, directives, imports)
    ensures (set m | m in AllKept(results, directives)) == imports
  {
    hide AllKept, Counts;
    forall m ensures m in AllKept(results, directives) <==> m in imports { AllKeptAre(results, directives, m); }
  }

  lemma NothingStands()
    ensures Stands(map[], {})
  {
  }

  lemma ExactIsDisjoint(d: Deps, r: Resolving, imports: set<Module>)
    requires Exactly(d, r, imports)
    ensures d.deps !! d.pyiDeps
  {
    hide DependsOn, SeenByCheckers;
  }

  /** Two arrival orders of the same files give the same dependencies. */
  lemma ArrivalOrderIsIrrelevant(a: seq<ParserOutput>, b: seq<ParserOutput>, directives: set<string>,
                                 imports: set<Module>,
                                 r: Resolving, d: Deps, e: Deps)
    requires forall x :: x in a <==> x in b
    requires AreImports(a, directives, imports) && forall m :: m in imports ==> Shaped(m)
    requires Exactly(d, r, AddModules(map[], InOrder(Collected(a, directives))).Values)
    requires Exactly(e, r, AddModules(map[], InOrder(Collected(b, directives))).Values)
    ensures d == e
  {
    assert AreImports(b, directives, imports) by {
      hide Ignored;
      forall m ensures Counts(a, directives, m) <==> Counts(b, directives, m) {}
    }
    hide Collected, AddModules, AreImports, DependsOn, SeenByCheckers, Shaped;
    DepsAreExact(a, directives, imports, r, d);
    DepsAreExact(b, directives, imports, r, e);
    assert d.deps == e.deps;
    assert d.pyiDeps == e.pyiDeps;
  }

  /** `resolved_deps` join `deps` after the loop without leaving `pyiDeps`. */
  function WithResolved(d: Deps, resolved: set<Label>): Deps {
    d.(deps := d.deps + resolved)
  }

  /** No import but those for type checkers depends on the label. */
  ghost predicate OnlyChecked(r: Resolving, imports: set<Module>, l: Label) {
    forall n :: n in imports && DependsOn(r, n, l) ==> n.typeCheckingOnly
  }

  /** So the two attributes overlap exactly when some pre-resolved label is also asked
      for on behalf of type checkers, by an import of the target or its stubs, and no
      other import of the target depends on it. */
  lemma ResolvedDepsMayOverlap(d: Deps, r: Resolving, imports: set<Module>, resolved: set<Label>)
    requires Exactly(d, r, imports)
    ensures var both := WithResolved(d, resolved);
            !(both.deps !! both.pyiDeps) <==>
            exists l, m :: l in resolved && m in imports && SeenByCheckers(r, m, l) && OnlyChecked(r, imports, l)
  {
    hide DependsOn, SeenByCheckers;
    var both := WithResolved(d, resolved);
    if l :| l in both.deps && l in both.pyiDeps {
      var m :| m in imports && SeenByCheckers(r, m, l);
      assert l in resolved;
    }
    if l, m :| l in resolved && m in imports && SeenByCheckers(r, m, l) && OnlyChecked(r, imports, l) {
      assert l in both.deps && l in both.pyiDeps;
    }
  }

  /** The imports after sibling resolution. */
  ghost function RenamedSet(ms: set<Module>, pythonPackage: string, siblings: set<string>, on: bool): set<Module> {
    set m | m in ms :: Renamed(m, pythonPackage, siblings, on)
  }

  lemma AllRenamedAre(ms: seq<Module>, pythonPackage: string, siblings: set<string>, on: bool)
    ensures (set m | m in AllRenamed(ms, pythonPackage, siblings, on))
            == RenamedSet((set m | m in ms), pythonPackage, siblings, on)
  {
    hide Renamed;
    var rs := AllRenamed(ms, pythonPackage, siblings, on);
    forall r | r in rs ensures r in RenamedSet((set m | m in ms), pythonPackage, siblings, on) {
      var i :| 0 <= i < |rs| && rs[i] == r;
      assert ms[i] in ms;
    }
    forall m | m in ms ensures Renamed(m, pythonPackage, siblings, on) in rs {
      var i :| 0 <= i < |ms| && ms[i] == m;
      assert rs[i] == Renamed(m, pythonPackage, siblings, on);
    }
  }

  lemma OffRenamesNothing(ms: set<Module>, pythonPackage: string, siblings: set<string>)
    ensures RenamedSet(ms, pythonPackage, siblings, false) == ms
  {
    forall m ensures Renamed(m, pythonPackage, siblings, false) == m {}
  }

  /** Imports of one name are renamed alike. */
  ghost predicate RenameAlike(imports: set<Module>, pythonPackage: string, siblings: set<string>, on: bool) {
    forall m, n :: m in imports && n in imports && m.name == n.name ==>
      Renamed(m, pythonPackage, siblings, on).name == Renamed(n, pythonPackage, siblings, on).name
  }

  /** What stands for the imports after they are merged is renamed, not each import;
      where imports of one name are renamed alike that is the same. */
  lemma RenamedExactly(s: ModuleSet, imports: set<Module>, pythonPackage: string, siblings: set<string>, on: bool,
                       r: Resolving, d: Deps)
    requires Stands(s, imports) && ByName(imports) && RenameAlike(imports, pythonPackage, siblings, on)
    requires Exactly(d, r, RenamedSet(s.Values, pythonPackage, siblings, on))
    ensures Exactly(d, r, RenamedSet(imports, pythonPackage, siblings, on))
  {
    hide Exactly, Target, Renamed, ByName, Stands, RenameAlike, StandsFor;
    var (few, all) := (RenamedSet(s.Values, pythonPackage, siblings, on),
        RenamedSet(imports, pythonPackage, siblings, on));
    assert few <= all by { ValuesAreImports(s, imports); }
    forall x | x in all ensures exists y :: y in few && StandsFor(y, x) {
      var m :| m in imports && Renamed(m, pythonPackage, siblings, on) == x;
      RenamedStandsFor(s, imports, pythonPackage, siblings, on, m);
      assert Renamed(s[m.name], pythonPackage, siblings, on) in few;
    }
    FewIsEnough(few, all, r, d);
  }

  lemma ValuesAreImports(s: ModuleSet, imports: set<Module>)
    requires Stands(s, imports)
    ensures s.Values <= imports
  {
  }

  lemma RenamedStandsFor(s: ModuleSet, imports: set<Module>, pythonPackage: string, siblings: set<string>, on: bool,
                         m: Module)
    requires Stands(s, imports) && ByName(imports) && RenameAlike(imports, pythonPackage, siblings, on) && m in imports
    ensures m.name in s && s[m.name] in s.Values
    ensures StandsFor(Renamed(s[m.name], pythonPackage, siblings, on), Renamed(m, pythonPackage, siblings, on))
  {
    var e := s[m.name];
    RenamedSeen(e, pythonPackage, siblings, on);
    RenamedSeen(m, pythonPackage, siblings, on);
    hide Renamed, Origin;
  }

  lemma RenamedSeen(m: Module, pythonPackage: string, siblings: set<string>, on: bool)
    ensures var x := Renamed(m, pythonPackage, siblings, on);
            Origin(x) == Origin(m) && x.typeCheckingOnly == m.typeCheckingOnly
  {
    hide FileOf, BaseName, ImportSpec;
  }

  /** What the builder of a target ends with. */
  function Final(results: seq<ParserOutput>, directives: set<string>, pythonPackage: string, siblings: set<string>,
                 on: bool): ModuleSet {
    AddModules(map[], AllRenamed(InOrder(Collected(results, directives)), pythonPackage, siblings, on))
  }

  /** The chain as the extension runs it. */
  method TargetDependencies(parser: Python3Parser, results: seq<ParserOutput>, builder: TargetBuilder, r: Resolving,
                            ghost imports: set<Module>) returns (d: Deps, fatal: bool)
    requires builder.deps == map[] && AreImports(results, parser.directives, imports)
    modifies builder
    ensures builder.deps
            == Final(results, parser.directives, builder.pythonPackage, builder.siblings, builder.resolveSiblingImports)
    ensures Exactly(d, r, builder.deps.Values)
            && (fatal <==> exists m :: m in builder.deps.Values && Target(r, m).Unresolved?)
    ensures d.deps !! d.pyiDeps
    ensures var renamed := RenamedSet(imports, builder.pythonPackage, builder.siblings, builder.resolveSiblingImports);
            ByName(imports) && ByName(renamed)
                && RenameAlike(imports, builder.pythonPackage, builder.siblings, builder.resolveSiblingImports) ==>
              Exactly(d, r, renamed)
    ensures ByName(imports) && !builder.resolveSiblingImports ==> Exactly(d, r, imports)
  {
    ghost var (pkg, siblings, on) := (builder.pythonPackage, builder.siblings, builder.resolveSiblingImports);
    hide Exactly, AddModules, AllKept, Counts, Target, Renamed, RenameAlike, RenamedSet, ByName;
    var modules, mains := parser.Collect(results);
    builder.AddModuleDependencies(modules);
    CollectedStands(results, parser.directives);
    KeptAreImports(results, parser.directives, imports);
    d, fatal := ResolveModules(r, builder.deps);
    ExactIsDisjoint(d, r, builder.deps.Values);
    ghost var renamed := RenamedSet(imports, pkg, siblings, on);
    if !on {
      OffRenamesNothing(imports, pkg, siblings);
      OffIsAlike(imports, pkg, siblings);
    }
    if ByName(imports) && ByName(renamed) && RenameAlike(imports, pkg, siblings, on) {
      RenamedStands(modules, pkg, siblings, on);
      FewerByName(modules, imports, pkg, siblings, on);
      StandsIsEnough(builder.deps, RenamedSet(modules.Values, pkg, siblings, on), r, d);
      RenamedExactly(modules, imports, pkg, siblings, on, r, d);
    }
  }

  lemma FewerByName(s: ModuleSet, imports: set<Module>, pythonPackage: string, siblings: set<string>, on: bool)
    requires Stands(s, imports) && ByName(RenamedSet(imports, pythonPackage, siblings, on))
    ensures ByName(RenamedSet(s.Values, pythonPackage, siblings, on))
  {
    hide Renamed;
  }

  lemma OffIsAlike(imports: set<Module>, pythonPackage: string, siblings: set<string>)
    ensures RenameAlike(imports, pythonPackage, siblings, false)
  {
  }

  lemma RenamedStands(modules: ModuleSet, pythonPackage: string, siblings: set<string>, on: bool)
    ensures Stands(AddModules(map[], AllRenamed(InOrder(modules), pythonPackage, siblings, on)),
                   RenamedSet(modules.Values, pythonPackage, siblings, on))
  {
    hide Stands, AddModules, Renamed;
    var ms := InOrder(modules);
    NothingStands();
    AddAllStand(map[], {}, AllRenamed(ms, pythonPackage, siblings, on));
    AllRenamedAre(ms, pythonPackage, siblings, on);
    assert (set m | m in ms) == modules.Values;
    assert {} + RenamedSet(modules.Values, pythonPackage, siblings, on)
           == RenamedSet(modules.Values, pythonPackage, siblings, on);
  }

  /** Where the package and its files have no leading dot, only absolute imports are
      renamed, and to absolute names; so imports of one name still ask for the same. */
  lemma RenamedByName(imports: set<Module>, pythonPackage: string, siblings: set<string>, on: bool)
    requires forall m :: m in imports ==> Shaped(m)
    requires on ==> !StartsWith(pythonPackage, ".") && forall s :: s in siblings ==> !StartsWith(s, ".")
    ensures ByName(RenamedSet(imports, pythonPackage, siblings, on))
  {
    ShapedByName(imports);
    forall m | m in imports
      ensures var x := Renamed(m, pythonPackage, siblings, on); x == m || !(IsRelative(x) || StartsWith(x.name, ".")) {
      if on && FileOf(m) in siblings { SpecIsAbsolute(m, pythonPackage); }
    }
    forall m | m in imports ensures IsRelative(m) ==> StartsWith(m.name, ".") {}
    hide Renamed, Shaped;
  }

  lemma SpecIsAbsolute(m: Module, pythonPackage: string)
    requires !StartsWith(pythonPackage, ".") && !StartsWith(FileOf(m), ".") && Shaped(m)
    ensures !StartsWith(m.from, ".") && !StartsWith(ImportSpec(pythonPackage, FileOf(m)), ".")
  {
    var file := FileOf(m);
    var spec := ImportSpec(pythonPackage, file);
    assert file[|file| - 3..] == ".py";
    assert m.from != "" ==> file[0] == m.from[0];
    if pythonPackage == "" {
      assert file != "" && file[0] != '.';
    } else {
      assert spec[0] == pythonPackage[0];
    }
  }

  // ------------------------------------------------------ back to the sources

  datatype SourceFile = SourceFile(name: string, tree: Node, hasMain: bool, ignore: set<string>)

  function Parsed(f: SourceFile): ParserOutput {
    ParserOutput(f.name, f.hasMain, ImportsIn(f.tree, f.name, false), f.ignore)
  }

  function AllParsed(files: seq<SourceFile>): seq<ParserOutput> {
    seq(|files|, i requires 0 <= i < |files| => Parsed(files[i]))
  }

  /** The import statement at the end of a path names `m`. */
  ghost predicate States(f: SourceFile, path: seq<nat>, m: Module) {
    path != [] && At(f.tree, path).Some? && m in Named(At(f.tree, path).value, f.name, Guarded(f.tree, path))
  }

  lemma ParsedIffStated(f: SourceFile, m: Module)
    ensures m in Parsed(f).modules <==> exists path :: States(f, path, m)
  {
    hide Named, ImportsIn, Guarded, At;
    if m in Parsed(f).modules {
      var path := RecordedStands(f.tree, f.name, false, m);
      assert States(f, path, m);
    }
    if path :| States(f, path, m) { StandingIsRecorded(f.tree, f.name, false, path, m); }
  }

  lemma {:induction false} NamedFlag(node: Node, file: string, tc: bool, m: Module)
    requires m in Named(node, file, tc)
    ensures m.typeCheckingOnly == tc
  {
    if node.Import? { PlainFlag(node.names, file, tc, m); }
  }

  lemma {:induction false} PlainFlag(names: seq<string>, file: string, tc: bool, m: Module)
    requires m in Plain(names, file, tc)
    ensures m.typeCheckingOnly == tc
  {
    if m in Plain(names[1..], file, tc) { PlainFlag(names[1..], file, tc, m); }
  }

  /** An import statement of the files that nothing ignores, outside every
      type-checking `if`, and resolving to `l`. */
  ghost predicate PlainImportOf(files: seq<SourceFile>, directives: set<string>, r: Resolving, l: Label, f: SourceFile,
                                path: seq<nat>, m: Module) {
    f in files && States(f, path, m) && !Guarded(f.tree, path) && !Ignored(m, f.ignore, directives)
        && DependsOn(r, m, l)
  }

  /** The counted imports of valid trees are shaped, so those of one name ask for the
      same. */
  lemma CountedIsShaped(files: seq<SourceFile>, directives: set<string>, m: Module)
    requires (forall f :: f in files ==> GoodNode(f.tree)) && Counts(AllParsed(files), directives, m)
    ensures Shaped(m)
  {
    var p :| p in AllParsed(files) && m in p.modules && !Ignored(m, p.ignore, directives);
    var i :| 0 <= i < |files| && AllParsed(files)[i] == p;
    var tree := files[i].tree;
    assert files[i] in files;
    RelativeByName(tree.children, files[i].name, IsTypeChecking(tree), m);
  }

  lemma ImportCounts(files: seq<SourceFile>, directives: set<string>, f: SourceFile, m: Module)
    requires f in files && m in Parsed(f).modules && !Ignored(m, f.ignore, directives)
    ensures Counts(AllParsed(files), directives, m)
  {
    hide Ignored, ImportsIn;
    var i :| 0 <= i < |files| && files[i] == f;
    assert AllParsed(files)[i] == Parsed(f);
  }

  /** An import statement of the files that nothing ignores and that asks for `l` on
      behalf of type checkers: inside a type-checking `if`, or by its stubs. */
  ghost predicate CheckedImportOf(files: seq<SourceFile>, directives: set<string>, r: Resolving, l: Label,
                                  f: SourceFile, path: seq<nat>, m: Module) {
    && f in files && States(f, path, m) && !Ignored(m, f.ignore, directives)
    && ((Guarded(f.tree, path) && DependsOn(r, m, l)) || (Target(r, m).Resolved? && l in Target(r, m).stubs))
  }

  /** A counted import stands in some file's tree. */
  lemma CountedStands(files: seq<SourceFile>, directives: set<string>, m: Module)
    returns (f: SourceFile, path: seq<nat>)
    requires Counts(AllParsed(files), directives, m)
    ensures f in files && States(f, path, m) && !Ignored(m, f.ignore, directives)
            && m.typeCheckingOnly == Guarded(f.tree, path)
  {
    hide Ignored, Guarded, At, Named, ImportsIn;
    var p :| p in AllParsed(files) && m in p.modules && !Ignored(m, p.ignore, directives);
    var i :| 0 <= i < |files| && AllParsed(files)[i] == p;
    f := files[i];
    ParsedIffStated(f, m);
    path :| States(f, path, m);
    NamedFlag(At(f.tree, path).value, f.name, Guarded(f.tree, path), m);
  }

  lemma StandingCounts(files: seq<SourceFile>, directives: set<string>, f: SourceFile, path: seq<nat>, m: Module)
    requires f in files && States(f, path, m) && !Ignored(m, f.ignore, directives)
    ensures Counts(AllParsed(files), directives, m) && m.typeCheckingOnly == Guarded(f.tree, path)
  {
    hide Ignored, Guarded, At, Named, ImportsIn;
    ParsedIffStated(f, m);
    NamedFlag(At(f.tree, path).value, f.name, Guarded(f.tree, path), m);
    ImportCounts(files, directives, f, m);
  }

  /** `pyi_deps` read off the syntax trees of the files. */
  lemma PyiDepsFromTrees(files: seq<SourceFile>, directives: set<string>, imports: set<Module>, r: Resolving, d: Deps,
                         l: Label)
    requires AreImports(AllParsed(files), directives, imports) && Exactly(d, r, imports)
    ensures l in d.pyiDeps <==>
              l !in d.deps && exists f, path, m :: CheckedImportOf(files, directives, r, l, f, path, m)
  {
    hide Counts, Ignored, Guarded, States, DependsOn, Target;
    if m :| m in imports && SeenByCheckers(r, m, l) {
      var f, path := CountedStands(files, directives, m);
      SeenIs(r, m, l);
      assert CheckedImportOf(files, directives, r, l, f, path, m);
    }
    if f, path, m :| CheckedImportOf(files, directives, r, l, f, path, m) {
      StandingCounts(files, directives, f, path, m);
      SeenIs(r, m, l);
      assert m in imports;
    }
  }

  lemma SeenIs(r: Resolving, m: Module, l: Label)
    ensures SeenByCheckers(r, m, l) <==>
              (m.typeCheckingOnly && DependsOn(r, m, l)) || (Target(r, m).Resolved? && l in Target(r, m).stubs)
  {
    hide Target;
  }

  /** `deps` read off the syntax trees of the files. */
  lemma DepsFromTrees(files: seq<SourceFile>, directives: set<string>, imports: set<Module>, r: Resolving, d: Deps,
                      l: Label)
    requires AreImports(AllParsed(files), directives, imports) && Exactly(d, r, imports)
    ensures l in d.deps <==> exists f, path, m :: PlainImportOf(files, directives, r, l, f, path, m)
  {
    hide DependsOn, SeenByCheckers, Ignored, Guarded, Counts, States;
    if l in d.deps {
      var m :| m in imports && !m.typeCheckingOnly && DependsOn(r, m, l);
      var f, path := CountedStands(files, directives, m);
      assert PlainImportOf(files, directives, r, l, f, path, m);
    }
    if f, path, m :| PlainImportOf(files, directives, r, l, f, path, m) {
      StandingCounts(files, directives, f, path, m);
      assert m in imports;
    }
  }
}
