/** When the order in which parsed files arrive decides a target's dependencies: with
    sibling resolution on, imports of one name are merged before they are renamed. */
module SiblingOrder {
  import opened Text
  import opened TypeChecking
  import opened RelativeImports
  import opened Dependencies
  import Resolver
  import Sorting

  // ------------------------------------------------------- what a target asks for

  /** The names that the modules of a target ask for: for everyone, and for type
      checkers alone. */
  datatype Asks = Asks(plain: set<string>, checked: set<string>)

  ghost function Names(ms: set<Module>, pkg: string, relative: bool): set<string> {
    set m | m in ms && Asked(pkg, relative, m).Some? :: Asked(pkg, relative, m).value
  }

  ghost function AsksOf(s: ModuleSet, pkg: string, relative: bool): Asks {
    var plain := Names((set m | m in s.Values && !m.typeCheckingOnly), pkg, relative);
    Asks(plain, Names(s.Values, pkg, relative) - plain)
  }

  ghost predicate LeadsTo(r: Resolving, name: string, l: Label) {
    var t := Resolver.Walk(r.env, name, false);
    t.Resolved? && t.dep == l
  }

  ghost predicate HasStub(r: Resolving, name: string, l: Label) {
    var t := Resolver.Walk(r.env, name, false);
    t.Resolved? && l in t.stubs
  }

  /** The dependencies of a target, read off the names it asks for. */
  ghost predicate ByAsks(d: Deps, r: Resolving, asks: Asks) {
    && (forall l :: l in d.deps <==> exists n :: n in asks.plain && LeadsTo(r, n, l))
    && (forall l :: l in d.pyiDeps <==>
          l !in d.deps && exists n ::
              n in asks.plain + asks.checked && ((n in asks.checked && LeadsTo(r, n, l)) || HasStub(r, n, l)))
  }

  lemma AskedTarget(r: Resolving, m: Module, l: Label)
    ensures DependsOn(r, m, l) <==>
              Asked(r.env.from.pkg, r.relative, m).Some? && LeadsTo(r, Asked(r.env.from.pkg, r.relative, m).value, l)
    ensures SeenByCheckers(r, m, l) <==>
              && Asked(r.env.from.pkg, r.relative, m).Some?
              && var n := Asked(r.env.from.pkg, r.relative, m).value;
                   (m.typeCheckingOnly && LeadsTo(r, n, l)) || HasStub(r, n, l)
  {
  }

  lemma ExactlyByAsks(s: ModuleSet, r: Resolving, d: Deps)
    requires Exactly(d, r, s.Values)
    ensures ByAsks(d, r, AsksOf(s, r.env.from.pkg, r.relative))
  {
    var (pkg, relative) := (r.env.from.pkg, r.relative);
    var asks := AsksOf(s, pkg, relative);
    forall m, l | m in s.Values
      ensures DependsOn(r, m, l) <==> Asked(pkg, relative, m).Some? && LeadsTo(r, Asked(pkg, relative, m).value, l)
      ensures SeenByCheckers(r, m, l) <==>
                && Asked(pkg, relative, m).Some?
                && var n := Asked(pkg, relative, m).value; (m.typeCheckingOnly && LeadsTo(r, n, l)) || HasStub(r, n, l)
    {
      AskedTarget(r, m, l);
    }
    hide Asked, DependsOn, SeenByCheckers, LeadsTo, HasStub;
    forall l ensures l in d.deps <==> exists n :: n in asks.plain && LeadsTo(r, n, l) {
      if m :| m in s.Values && !m.typeCheckingOnly && DependsOn(r, m, l) {
        assert Asked(pkg, relative, m).value in asks.plain;
      }
    }
    forall l ensures l in d.pyiDeps <==>
        l !in d.deps && exists n ::
            n in asks.plain + asks.checked && ((n in asks.checked && LeadsTo(r, n, l)) || HasStub(r, n, l))
    {
      if l in d.pyiDeps {
        var m :| m in s.Values && SeenByCheckers(r, m, l);
        var n := Asked(pkg, relative, m).value;
        assert n in asks.plain + asks.checked;
      }
      if n :| n in asks.plain + asks.checked && ((n in asks.checked && LeadsTo(r, n, l)) || HasStub(r, n, l)) {
        var m :| m in s.Values && Asked(pkg, relative, m) == Some(n);
        if n in asks.checked { assert m.typeCheckingOnly; }
        assert SeenByCheckers(r, m, l);
      }
    }
  }

  /** A rule whose overrides tell all names apart. */
  ghost function Telling(names: set<string>, pkg: string, relative: bool): Resolving {
    var overrides := map n | n in names :: Resolver.Label("x", "", n);
    Resolving(Resolver.Env(Resolver.Label("", pkg, ""), overrides, [], map[], {}, false, ""), relative)
  }

  lemma TellingLeads(names: set<string>, pkg: string, relative: bool, n: string, l: Label)
    requires n in names
    ensures LeadsTo(Telling(names, pkg, relative), n, l) <==> l == Resolver.Label("x", "", n)
    ensures !HasStub(Telling(names, pkg, relative), n, l)
  {
  }

  ghost function Labelled(names: set<string>): set<Label> {
    set n | n in names :: Resolver.Label("x", "", n)
  }

  lemma LabelledInjective(a: set<string>, b: set<string>)
    requires Labelled(a) == Labelled(b)
    ensures a == b
  {
    forall n ensures n in a <==> Resolver.Label("x", "", n) in Labelled(a) {}
    forall n ensures n in b <==> Resolver.Label("x", "", n) in Labelled(b) {}
  }

  lemma TellingDeps(s: ModuleSet, names: set<string>, pkg: string, relative: bool)
    requires Names(s.Values, pkg, relative) <= names
    ensures var asks := AsksOf(s, pkg, relative);
            Exactly(Deps(Labelled(asks.plain), Labelled(asks.checked)), Telling(names, pkg, relative), s.Values)
  {
    var r := Telling(names, pkg, relative);
    var asks := AsksOf(s, pkg, relative);
    forall m, l | m in s.Values
      ensures DependsOn(r, m, l) <==>
                Asked(pkg, relative, m).Some? && l == Resolver.Label("x", "", Asked(pkg, relative, m).value)
      ensures SeenByCheckers(r, m, l) <==> m.typeCheckingOnly && DependsOn(r, m, l)
    {
      AskedTarget(r, m, l);
      if Asked(pkg, relative, m).Some? { TellingLeads(names, pkg, relative, Asked(pkg, relative, m).value, l); }
    }
    hide Asked, DependsOn, SeenByCheckers, Telling;
    var d := Deps(Labelled(asks.plain), Labelled(asks.checked));
    forall l ensures l in d.deps <==> exists m :: m in s.Values && !m.typeCheckingOnly && DependsOn(r, m, l) {
      if l in d.deps {
        var n :| n in asks.plain && l == Resolver.Label("x", "", n);
        var m :| m in s.Values && !m.typeCheckingOnly && Asked(pkg, relative, m) == Some(n);
        assert DependsOn(r, m, l);
      }
      if m :| m in s.Values && !m.typeCheckingOnly && DependsOn(r, m, l) {
        assert Asked(pkg, relative, m).value in asks.plain;
      }
    }
    forall l ensures l in d.pyiDeps <==> l !in d.deps && exists m :: m in s.Values && SeenByCheckers(r, m, l) {
      if l in d.pyiDeps {
        var n :| n in asks.checked && l == Resolver.Label("x", "", n);
        var m :| m in s.Values && Asked(pkg, relative, m) == Some(n);
        assert m.typeCheckingOnly;
        assert SeenByCheckers(r, m, l);
      }
      if l !in d.deps {
        if m :| m in s.Values && SeenByCheckers(r, m, l) {
          var n := Asked(pkg, relative, m).value;
          assert n in Names(s.Values, pkg, relative);
          assert n !in asks.plain;
        }
      }
    }
  }

  /** The same dependencies for a package's rule, however it resolves imports. */
  ghost predicate SameDeps(s: ModuleSet, t: ModuleSet, pkg: string, relative: bool) {
    forall r: Resolving, d: Deps, e: Deps ::
      r.env.from.pkg == pkg && r.relative == relative && Exactly(d, r, s.Values) && Exactly(e, r, t.Values) ==> d == e
  }

  /** Two sets of modules give a package's rule the same dependencies exactly when they
      ask for the same names for everyone and for the same ones for type checkers
      alone. */
  lemma SameDepsIff(s: ModuleSet, t: ModuleSet, pkg: string, relative: bool)
    ensures SameDeps(s, t, pkg, relative) <==> AsksOf(s, pkg, relative) == AsksOf(t, pkg, relative)
  {
    if AsksOf(s, pkg, relative) == AsksOf(t, pkg, relative) {
      forall r: Resolving, d: Deps, e: Deps |
        r.env.from.pkg == pkg && r.relative == relative && Exactly(d, r, s.Values) && Exactly(e, r, t.Values)
        ensures d == e
      {
        SameAsksSameDeps(s, t, r, d, e);
      }
    } else {
      ToldApart(s, t, pkg, relative);
    }
  }

  lemma SameAsksSameDeps(s: ModuleSet, t: ModuleSet, r: Resolving, d: Deps, e: Deps)
    requires AsksOf(s, r.env.from.pkg, r.relative) == AsksOf(t, r.env.from.pkg, r.relative)
    requires Exactly(d, r, s.Values) && Exactly(e, r, t.Values)
    ensures d == e
  {
    ExactlyByAsks(s, r, d);
    ExactlyByAsks(t, r, e);
    hide Exactly, AsksOf, LeadsTo, HasStub;
    assert d.deps == e.deps;
    assert d.pyiDeps == e.pyiDeps;
  }

  lemma ToldApart(s: ModuleSet, t: ModuleSet, pkg: string, relative: bool)
    requires AsksOf(s, pkg, relative) != AsksOf(t, pkg, relative)
    ensures exists r: Resolving, d: Deps, e: Deps ::
              r.env.from.pkg == pkg && r.relative == relative && Exactly(d, r, s.Values) && Exactly(e, r, t.Values)
                  && d != e
  {
    var names := Names(s.Values, pkg, relative) + Names(t.Values, pkg, relative);
    var (a, b) := (AsksOf(s, pkg, relative), AsksOf(t, pkg, relative));
    TellingDeps(s, names, pkg, relative);
    TellingDeps(t, names, pkg, relative);
    var (d, e) := (Deps(Labelled(a.plain), Labelled(a.checked)), Deps(Labelled(b.plain), Labelled(b.checked)));
    var r := Telling(names, pkg, relative);
    assert r.env.from.pkg == pkg && r.relative == relative;
    hide Exactly, AsksOf, Names, Telling;
    if d == e {
      LabelledInjective(a.plain, b.plain);
      LabelledInjective(a.checked, b.checked);
    }
  }

  /** For any parsed files, however they arrive, with any package, siblings and
      directives: two arrivals lead to the same dependencies, however imports are
      resolved, exactly when the renamed merged sets ask for the same names. */
  lemma OrderIsIrrelevantIff(a: seq<ParserOutput>, b: seq<ParserOutput>, directives: set<string>,
                             pythonPackage: string, siblings: set<string>, on: bool, pkg: string, relative: bool)
    ensures var (s, t) :=
              (Final(a, directives, pythonPackage, siblings, on), Final(b, directives, pythonPackage, siblings, on));
            SameDeps(s, t, pkg, relative) <==> AsksOf(s, pkg, relative) == AsksOf(t, pkg, relative)
  {
    hide *;
    SameDepsIff(Final(a, directives, pythonPackage, siblings, on), Final(b, directives, pythonPackage, siblings, on),
        pkg, relative);
  }

  // ------------------------------------------------------------ in every order

  /** An import that can come to stand for its name: one for everyone, or any if the
      name is imported for type checkers alone. */
  ghost predicate CanStand(imports: set<Module>, m: Module) {
    m in imports && (m.typeCheckingOnly ==> forall n :: n in imports && n.name == m.name ==> n.typeCheckingOnly)
  }

  /** The imports that can come to stand for a name are renamed alike, and from the
      same package when they are relative. */
  ghost predicate Steady(imports: set<Module>, pythonPackage: string, siblings: set<string>, on: bool) {
    forall m, n :: CanStand(imports, m) && CanStand(imports, n) && m.name == n.name ==>
      Origin(m) == Origin(n)
          && Renamed(m, pythonPackage, siblings, on).name == Renamed(n, pythonPackage, siblings, on).name
  }

  /** Modules that ask for the same. */
  predicate Alike(m: Module, n: Module) {
    m.name == n.name && Origin(m) == Origin(n) && m.typeCheckingOnly == n.typeCheckingOnly
  }

  ghost predicate AlikeLists(ms: seq<Module>, ns: seq<Module>) {
    |ms| == |ns| && forall i :: 0 <= i < |ms| ==> Alike(ms[i], ns[i])
  }

  ghost predicate AlikeSets(s: ModuleSet, t: ModuleSet) {
    s.Keys == t.Keys && forall n :: n in s ==> Alike(s[n], t[n])
  }

  lemma {:induction false} AlikeAdded(ms: seq<Module>, ns: seq<Module>)
    requires AlikeLists(ms, ns)
    ensures AlikeSets(AddModules(map[], ms), AddModules(map[], ns))
  {
    hide Origin;
    if ms != [] { AlikeAdded(ms[..|ms| - 1], ns[..|ns| - 1]); }
  }

  lemma AlikeAsks(s: ModuleSet, t: ModuleSet, pkg: string, relative: bool)
    requires AlikeSets(s, t)
    ensures AsksOf(s, pkg, relative) == AsksOf(t, pkg, relative)
  {
    forall n | n in s ensures Asked(pkg, relative, s[n]) == Asked(pkg, relative, t[n]) && s[n] in s.Values
        && t[n] in t.Values {
      OriginDecides(pkg, relative, s[n], t[n]);
    }
    hide Asked, Origin;
    AlikeNames(s, t, pkg, relative);
    AlikeNames(t, s, pkg, relative);
  }

  lemma AlikeNames(s: ModuleSet, t: ModuleSet, pkg: string, relative: bool)
    requires s.Keys == t.Keys
    requires forall n :: n in s ==>
               Asked(pkg, relative, s[n]) == Asked(pkg, relative, t[n])
                   && s[n].typeCheckingOnly == t[n].typeCheckingOnly
    ensures Names(s.Values, pkg, relative) <= Names(t.Values, pkg, relative)
    ensures AsksOf(s, pkg, relative).plain <= AsksOf(t, pkg, relative).plain
  {
    hide Asked;
    forall m | m in s.Values && Asked(pkg, relative, m).Some?
      ensures exists x :: x in t.Values && x.typeCheckingOnly == m.typeCheckingOnly
                          && Asked(pkg, relative, x) == Asked(pkg, relative, m)
    {
      var n :| n in s && s[n] == m;
      assert t[n] in t.Values;
    }
  }

  lemma StandingCanStand(s: ModuleSet, t: ModuleSet, imports: set<Module>)
    requires Stands(s, imports) && Stands(t, imports)
    ensures s.Keys == t.Keys
    ensures forall n :: n in s ==> s[n].name == n == t[n].name && CanStand(imports, s[n]) && CanStand(imports, t[n])
    ensures forall n :: n in s ==> s[n].typeCheckingOnly == t[n].typeCheckingOnly
  {
  }

  /** Where imports are steady every arrival order asks for the same names. */
  lemma SteadyAsks(a: seq<ParserOutput>, b: seq<ParserOutput>, directives: set<string>, imports: set<Module>,
                   pythonPackage: string, siblings: set<string>, on: bool)
    requires AreImports(a, directives, imports) && AreImports(b, directives, imports)
             && Steady(imports, pythonPackage, siblings, on)
    ensures AlikeSets(Final(a, directives, pythonPackage, siblings, on),
            Final(b, directives, pythonPackage, siblings, on))
  {
    hide AreImports, Steady, AddModules, AllKept, AllRenamed, InOrder, Stands, CanStand, Renamed, AlikeLists, AlikeSets;
    var (s, t) := (Collected(a, directives), Collected(b, directives));
    CollectedStands(a, directives);
    CollectedStands(b, directives);
    KeptAreImports(a, directives, imports);
    KeptAreImports(b, directives, imports);
    StandingCanStand(s, t, imports);
    RenamedAlike(s, t, imports, pythonPackage, siblings, on);
    AlikeAdded(AllRenamed(InOrder(s), pythonPackage, siblings, on),
        AllRenamed(InOrder(t), pythonPackage, siblings, on));
  }

  lemma RenamedAlike(s: ModuleSet, t: ModuleSet, imports: set<Module>, pythonPackage: string, siblings: set<string>,
                     on: bool)
    requires s.Keys == t.Keys && Steady(imports, pythonPackage, siblings, on)
    requires forall n :: n in s ==> s[n].name == n == t[n].name && CanStand(imports, s[n]) && CanStand(imports, t[n])
    requires forall n :: n in s ==> s[n].typeCheckingOnly == t[n].typeCheckingOnly
    ensures AlikeLists(AllRenamed(InOrder(s), pythonPackage, siblings, on),
            AllRenamed(InOrder(t), pythonPackage, siblings, on))
  {
    forall n | n in s ensures Alike(Renamed(s[n], pythonPackage, siblings, on),
        Renamed(t[n], pythonPackage, siblings, on)) {
      RenamedSeen(s[n], pythonPackage, siblings, on);
      RenamedSeen(t[n], pythonPackage, siblings, on);
    }
    hide Renamed, Alike, CanStand, Steady, Sorting.Sorted, Sorting.StrictlyIncreasing;
    var names := Sorting.Sorted(s.Keys);
    assert forall i :: 0 <= i < |names| ==> names[i] in names;
  }

  /** Where the runtime imports of each name, or if there are none its type-checking
      ones, are renamed alike, files give the same dependencies in every order. */
  lemma SteadyOrderIsIrrelevant(a: seq<ParserOutput>, b: seq<ParserOutput>, directives: set<string>,
                                imports: set<Module>,
                                pythonPackage: string, siblings: set<string>, on: bool, r: Resolving, d: Deps, e: Deps)
    requires AreImports(a, directives, imports) && AreImports(b, directives, imports)
             && Steady(imports, pythonPackage, siblings, on)
    requires Exactly(d, r, Final(a, directives, pythonPackage, siblings, on).Values)
    requires Exactly(e, r, Final(b, directives, pythonPackage, siblings, on).Values)
    ensures d == e
  {
    hide *;
    SteadyAsks(a, b, directives, imports, pythonPackage, siblings, on);
    var (s, t) := (Final(a, directives, pythonPackage, siblings, on),
        Final(b, directives, pythonPackage, siblings, on));
    AlikeAsks(s, t, r.env.from.pkg, r.relative);
    SameAsksSameDeps(s, t, r, d, e);
  }

  // ------------------------------------------------------- where order decides

  /** A rule of package `p` in a repository that has one indexed file, `p/a.py`. */
  function InPackage(from: string): Resolving {
    var index := map["p.a" := [Resolver.FindResult(Resolver.Label("", "p", "a"), {})]];
    Resolving(Resolver.Env(Resolver.Label("", "p", from), map[], [], index, {}, false, ""), false)
  }

  lemma SiblingIsFound(from: string)
    requires from != "a"
    ensures Resolver.Walk(InPackage(from).env, "p.a", false) == Resolver.Resolved(Resolver.Label("", "p", "a"), {})
  {
    var env := InPackage(from).env;
    var matches := Resolver.Matches(env, "p.a");
    assert |matches| == 1 && !Resolver.IsSelfImport(env, matches[0]);
  }

  lemma NothingIsFound(from: string)
    ensures Resolver.Walk(InPackage(from).env, "a.b", false) == Resolver.NoDependency
  {
    var env := InPackage(from).env;
    assert "a.b"[1] == '.' && "a.b"[2] != '.' && "a.b"[..1] == "a";
    assert LastIndexOf("a.b", '.') == 1 && LastIndexOf("a", '.') == -1;
    assert "a.b" !in env.index && "a" !in env.index by { assert |"p.a"| == 3 && "p.a"[0] != "a.b"[0]; }
    assert Resolver.Candidate(env, "a.b") == Resolver.Next(false)
           && Resolver.Candidate(env, "a") == Resolver.Next(false);
    assert Resolver.Walk(env, "a", false) == Resolver.NoDependency;
  }

  /** Two files of package `p`, one with `import a.b` and one with `from a import b`,
      beside `a.py`. When the second arrives last the target depends on the sibling's
      rule; when it arrives first the dependency is lost. */
  lemma SiblingOrderMatters(f: string, g: string, from: string)
    requires BaseName(g) != "a.py" && from != "a"
    ensures var p := ParserOutput(f, false, [Module("a.b", "", f, false)], {});
            var q := ParserOutput(g, false, [Module("a.b", "a", g, false)], {});
            && Exactly(Deps({Resolver.Label("", "p", "a")}, {}), InPackage(from),
                 Final([p, q], {}, "p", {"a.py"}, true).Values)
            && Exactly(Deps({}, {}), InPackage(from), Final([q, p], {}, "p", {"a.py"}, true).Values)
  {
    hide *;
    FoundWhenLast(f, g, from);
    LostWhenFirst(f, g, from);
  }

  lemma FoundWhenLast(f: string, g: string, from: string)
    requires BaseName(g) != "a.py" && from != "a"
    ensures var p := ParserOutput(f, false, [Module("a.b", "", f, false)], {});
            var q := ParserOutput(g, false, [Module("a.b", "a", g, false)], {});
            Exactly(Deps({Resolver.Label("", "p", "a")}, {}), InPackage(from),
                Final([p, q], {}, "p", {"a.py"}, true).Values)
  {
    var x, y := Module("a.b", "", f, false), Module("a.b", "a", g, false);
    KeptAlone(x, {});
    KeptAlone(y, {});
    assert !IsRelative(Module("p.a", "a", g, false)) by { assert "a"[0] != "."[0]; }
    hide *;
    FinalOne(ParserOutput(f, false, [x], {}), ParserOutput(g, false, [y], {}), x, y, "p", {"a.py"});
    SiblingRenamed(g);
    SiblingIsFound(from);
    DependsAlone(InPackage(from), Module("p.a", "a", g, false));
  }

  lemma LostWhenFirst(f: string, g: string, from: string)
    ensures var p := ParserOutput(f, false, [Module("a.b", "", f, false)], {});
            var q := ParserOutput(g, false, [Module("a.b", "a", g, false)], {});
            Exactly(Deps({}, {}), InPackage(from), Final([q, p], {}, "p", {"a.py"}, true).Values)
  {
    var x, y := Module("a.b", "", f, false), Module("a.b", "a", g, false);
    KeptAlone(x, {});
    KeptAlone(y, {});
    assert !IsRelative(x);
    hide *;
    FinalOne(ParserOutput(g, false, [y], {}), ParserOutput(f, false, [x], {}), y, x, "p", {"a.py"});
    OtherNotRenamed(f);
    NothingIsFound(from);
    DependsAlone(InPackage(from), x);
  }

  lemma SiblingRenamed(g: string)
    requires BaseName(g) != "a.py"
    ensures Renamed(Module("a.b", "a", g, false), "p", {"a.py"}, true) == Module("p.a", "a", g, false)
  {
    assert "a" + ".py" == "a.py" && "a.py"[..1] == "a" && EndsWith("a.py", ".py") && "p" + "." + "a" == "p.a";
    assert "a.py" != "__init__.py" by { assert |"a.py"| == 4 && |"__init__.py"| == 11; }
    hide BaseName;
  }

  lemma OtherNotRenamed(f: string)
    ensures Renamed(Module("a.b", "", f, false), "p", {"a.py"}, true) == Module("a.b", "", f, false)
  {
    assert "a.b" + ".py" == "a.b.py" && "a.b.py" != "a.py" by { assert |"a.b.py"| == 6; }
    hide BaseName;
  }

  lemma KeptAlone(m: Module, directives: set<string>)
    requires !Ignored(m, {}, directives)
    ensures Kept([m], {}, directives) == [m]
  {
    assert [m][..0] == [];
  }

  /** Of two runtime imports of one name the later stands, and is renamed. */
  lemma FinalOne(p: ParserOutput, q: ParserOutput, x: Module, y: Module, pythonPackage: string, siblings: set<string>)
    requires Kept(p.modules, p.ignore, {}) == [x] && Kept(q.modules, q.ignore, {}) == [y]
    requires x.name == y.name && !x.typeCheckingOnly && !y.typeCheckingOnly
    ensures Final([p, q], {}, pythonPackage, siblings, true).Values == {Renamed(y, pythonPackage, siblings, true)}
  {
    hide Kept, Renamed;
    CollectTwo(p, q, x, y);
    var ms := InOrder(map[y.name := y]);
    assert ms == [y] by { SortedAlone(y.name); }
    var rs := AllRenamed(ms, pythonPackage, siblings, true);
    var z := Renamed(y, pythonPackage, siblings, true);
    assert rs == [z] && [z][..0] == [];
    assert AddModules(map[], rs) == map[z.name := z];
    assert map[z.name := z].Values == {z} by { assert map[z.name := z][z.name] == z; }
  }

  lemma SortedAlone(name: string)
    ensures forall s: set<string> :: s == {name} ==> Sorting.Sorted(s) == [name]
  {
    assert {name} - {name} == {};
    assert Sorting.Sorted({name}) == [name];
  }

  lemma CollectTwo(p: ParserOutput, q: ParserOutput, x: Module, y: Module)
    requires Kept(p.modules, p.ignore, {}) == [x] && Kept(q.modules, q.ignore, {}) == [y]
    requires x.name == y.name && !x.typeCheckingOnly && !y.typeCheckingOnly
    ensures Collected([p, q], {}) == map[y.name := y]
  {
    hide Kept;
    assert [p, q][..1] == [p] && [p][..0] == [];
    assert AllKept([p], {}) == [x] && AllKept([p, q], {}) == [x, y];
    assert [x, y][..1] == [x] && [x][..0] == [];
    assert AddModules(map[], [x]) == map[x.name := x];
  }

  lemma DependsAlone(r: Resolving, m: Module)
    requires !IsRelative(m) && !m.typeCheckingOnly && var t := Resolver.Walk(r.env, m.name, false); t.Resolved? ==>
               t.stubs == {}
    ensures var t := Resolver.Walk(r.env, m.name, false); Exactly(Deps(if t.Resolved? then {t.dep} else {}, {}), r, {m})
  {
    hide Resolver.Walk;
  }
}
