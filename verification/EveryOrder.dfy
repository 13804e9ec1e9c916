/** Exactly when no order of the files can change a target's dependencies, read off its
    imports. */
module EveryOrder {
  import opened Text
  import opened TypeChecking
  import opened RelativeImports
  import opened Dependencies
  import opened SiblingOrder

  // ------------------------------------------------------------- the condition

  /** How a target's imports are renamed and asked for. */
  datatype Setting = Setting(pythonPackage: string, siblings: set<string>, on: bool, pkg: string, relative: bool)

  function AskOf(c: Setting, m: Module): Option<string> {
    Asked(c.pkg, c.relative, Renamed(m, c.pythonPackage, c.siblings, c.on))
  }

  /** An import of which it does not matter whether it or another stands for its name. */
  ghost predicate IsSettled(imports: set<Module>, c: Setting, m: Module) {
    CanStand(imports, m) && forall n :: CanStand(imports, n) && n.name == m.name ==> AskOf(c, n) == AskOf(c, m)
  }

  /** Whatever an import that can stand for its name asks for, a settled one asks for
      too, and for everyone if the first does. */
  ghost predicate IsCovered(imports: set<Module>, c: Setting) {
    forall m :: CanStand(imports, m) && AskOf(c, m).Some? ==> HasCover(imports, c, m)
  }

  ghost predicate HasCover(imports: set<Module>, c: Setting, m: Module) {
    exists n :: IsSettled(imports, c, n) && AskOf(c, n) == AskOf(c, m) && (n.typeCheckingOnly ==> m.typeCheckingOnly)
  }

  function FinalIn(results: seq<ParserOutput>, directives: set<string>, c: Setting): ModuleSet {
    Final(results, directives, c.pythonPackage, c.siblings, c.on)
  }

  ghost function AsksFinally(results: seq<ParserOutput>, directives: set<string>, c: Setting): Asks {
    AsksOf(FinalIn(results, directives, c), c.pkg, c.relative)
  }

  /** What a target asks for, read off the set before it is renamed. */
  ghost predicate AsksOfMerged(asks: Asks, s: ModuleSet, c: Setting) {
    && (forall x :: x in asks.plain <==> exists m :: m in s.Values && !m.typeCheckingOnly && AskOf(c, m) == Some(x))
    && (forall x :: x in asks.plain || x in asks.checked <==> exists m :: m in s.Values && AskOf(c, m) == Some(x))
    && asks.plain !! asks.checked
  }

  lemma FinalAsks(s: ModuleSet, t: ModuleSet, imports: set<Module>, c: Setting)
    requires s.Values <= imports && ByName(RenamedSet(imports, c.pythonPackage, c.siblings, c.on))
    requires Stands(t, RenamedSet(s.Values, c.pythonPackage, c.siblings, c.on))
    ensures AsksOfMerged(AsksOf(t, c.pkg, c.relative), s, c)
  {
    var asks := AsksOf(t, c.pkg, c.relative);
    forall m | m in s.Values && AskOf(c, m).Some?
      ensures AskOf(c, m).value in asks.plain + asks.checked
              && (!m.typeCheckingOnly ==> AskOf(c, m).value in asks.plain)
    {
      EntryAsks(m, s, t, imports, c);
      EntryListed(t, Entry(m, t, c), c);
    }
    forall x | x in asks.plain + asks.checked
      ensures exists m :: m in s.Values && AskOf(c, m) == Some(x) && (x in asks.plain ==> !m.typeCheckingOnly)
    {
      var e := ListedEntry(t, x, c);
      var m := RenamedFrom(s, t, e, c);
    }
    hide *;
  }

  lemma EntryListed(t: ModuleSet, e: Module, c: Setting)
    requires e in t.Values && Asked(c.pkg, c.relative, e).Some?
    ensures var (asks, x) := (AsksOf(t, c.pkg, c.relative), Asked(c.pkg, c.relative, e).value);
            x in asks.plain + asks.checked && (!e.typeCheckingOnly ==> x in asks.plain)
  {
    hide Asked;
  }

  lemma ListedEntry(t: ModuleSet, x: string, c: Setting) returns (e: Module)
    requires var asks := AsksOf(t, c.pkg, c.relative); x in asks.plain + asks.checked
    ensures e in t.Values && Asked(c.pkg, c.relative, e) == Some(x)
            && (x in AsksOf(t, c.pkg, c.relative).plain ==> !e.typeCheckingOnly)
  {
    hide Asked;
    if x in AsksOf(t, c.pkg, c.relative).plain {
      e :| e in t.Values && !e.typeCheckingOnly && Asked(c.pkg, c.relative, e) == Some(x);
    } else {
      e :| e in t.Values && Asked(c.pkg, c.relative, e) == Some(x);
    }
  }

  lemma RenamedFrom(s: ModuleSet, t: ModuleSet, e: Module, c: Setting) returns (m: Module)
    requires e in t.Values && Stands(t, RenamedSet(s.Values, c.pythonPackage, c.siblings, c.on))
    ensures m in s.Values && AskOf(c, m) == Asked(c.pkg, c.relative, e) && m.typeCheckingOnly == e.typeCheckingOnly
  {
    hide Asked, Renamed;
    var n :| n in t && t[n] == e;
    m :| m in s.Values && Renamed(m, c.pythonPackage, c.siblings, c.on) == e;
    RenamedSeen(m, c.pythonPackage, c.siblings, c.on);
  }

  /** The entry that stands for an import once it is renamed. */
  ghost function Entry(m: Module, t: ModuleSet, c: Setting): Module {
    var x := Renamed(m, c.pythonPackage, c.siblings, c.on);
    if x.name in t then t[x.name] else x
  }

  lemma EntryAsks(m: Module, s: ModuleSet, t: ModuleSet, imports: set<Module>, c: Setting)
    requires m in s.Values && s.Values <= imports && ByName(RenamedSet(imports, c.pythonPackage, c.siblings, c.on))
    requires Stands(t, RenamedSet(s.Values, c.pythonPackage, c.siblings, c.on))
    ensures Entry(m, t, c) in t.Values && Asked(c.pkg, c.relative, Entry(m, t, c)) == AskOf(c, m)
    ensures !m.typeCheckingOnly ==> !Entry(m, t, c).typeCheckingOnly
  {
    var x := Renamed(m, c.pythonPackage, c.siblings, c.on);
    RenamedSeen(m, c.pythonPackage, c.siblings, c.on);
    assert x in RenamedSet(s.Values, c.pythonPackage, c.siblings, c.on);
    var e := t[x.name];
    assert e in RenamedSet(imports, c.pythonPackage, c.siblings, c.on)
           && x in RenamedSet(imports, c.pythonPackage, c.siblings, c.on);
    OriginDecides(c.pkg, c.relative, e, x);
  }

  lemma CoveredAgree(s: ModuleSet, t: ModuleSet, imports: set<Module>, c: Setting, a: Asks, b: Asks)
    requires Stands(s, imports) && Stands(t, imports) && IsCovered(imports, c)
    requires AsksOfMerged(a, s, c) && AsksOfMerged(b, t, c)
    ensures a == b
  {
    CoveredBelow(s, t, imports, c, a, b);
    CoveredBelow(t, s, imports, c, b, a);
  }

  lemma CoveredBelow(s: ModuleSet, t: ModuleSet, imports: set<Module>, c: Setting, a: Asks, b: Asks)
    requires Stands(s, imports) && Stands(t, imports) && IsCovered(imports, c)
    requires AsksOfMerged(a, s, c) && AsksOfMerged(b, t, c)
    ensures a.plain <= b.plain && a.plain + a.checked <= b.plain + b.checked
  {
    forall m | m in s.Values && AskOf(c, m).Some?
      ensures AskOf(c, m).value in b.plain + b.checked && (!m.typeCheckingOnly ==> AskOf(c, m).value in b.plain)
    {
      var e := CoverIn(s, t, imports, c, m);
    }
    hide AskOf, Stands, IsCovered;
  }

  lemma CoverIn(s: ModuleSet, t: ModuleSet, imports: set<Module>, c: Setting, m: Module) returns (e: Module)
    requires Stands(s, imports) && Stands(t, imports) && IsCovered(imports, c) && m in s.Values && AskOf(c, m).Some?
    ensures e in t.Values && AskOf(c, e) == AskOf(c, m) && (e.typeCheckingOnly ==> m.typeCheckingOnly)
  {
    hide *;
    StandsCanStand(s, imports, m);
    var n := CoverOf(imports, c, m);
    e := NamedIn(t, imports, n);
    StandsCanStand(t, imports, e);
    SettledAlike(imports, c, n, e);
  }

  lemma CoverOf(imports: set<Module>, c: Setting, m: Module) returns (n: Module)
    requires IsCovered(imports, c) && CanStand(imports, m) && AskOf(c, m).Some?
    ensures IsSettled(imports, c, n) && n in imports && AskOf(c, n) == AskOf(c, m)
            && (n.typeCheckingOnly ==> m.typeCheckingOnly)
  {
    hide AskOf, IsSettled;
    assert HasCover(imports, c, m);
    n :| IsSettled(imports, c, n) && AskOf(c, n) == AskOf(c, m) && (n.typeCheckingOnly ==> m.typeCheckingOnly);
    SettledListed(imports, c, n);
  }

  lemma SettledListed(imports: set<Module>, c: Setting, n: Module)
    requires IsSettled(imports, c, n)
    ensures n in imports
  {
    hide AskOf;
  }

  lemma SettledAlike(imports: set<Module>, c: Setting, n: Module, e: Module)
    requires IsSettled(imports, c, n) && CanStand(imports, e) && e.name == n.name
    ensures AskOf(c, e) == AskOf(c, n)
  {
    hide AskOf;
  }

  lemma StandsCanStand(s: ModuleSet, imports: set<Module>, m: Module)
    requires Stands(s, imports) && m in s.Values
    ensures CanStand(imports, m) && m.name in s && s[m.name] == m
  {
  }

  lemma NamedIn(t: ModuleSet, imports: set<Module>, n: Module) returns (e: Module)
    requires Stands(t, imports) && n in imports
    ensures e in t.Values && e.name == n.name && (e.typeCheckingOnly ==> n.typeCheckingOnly)
  {
    e := t[n.name];
  }

  // ----------------------------------------------- orders that lean to a name

  /** Runtime modules take the place of others of their name. */
  lemma {:induction false} AddRuntime(s: ModuleSet, ms: seq<Module>, n: string)
    requires forall m :: m in ms ==> !m.typeCheckingOnly
    ensures var t := AddModules(s, ms);
            if exists m :: m in ms && m.name == n then n in t && t[n] in ms && t[n].name == n
            else (n in t <==> n in s) && (n in t ==> t[n] == s[n])
  {
    if ms != [] {
      var (front, last) := (ms[..|ms| - 1], ms[|ms| - 1]);
      AddRuntime(s, front, n);
      assert ms == front + [last] && last in ms;
      hide AddModules;
      StepAdds(s, ms);
    }
  }

  lemma StepAdds(s: ModuleSet, ms: seq<Module>)
    requires ms != []
    ensures AddModules(s, ms) == AddModule(AddModules(s, ms[..|ms| - 1]), ms[|ms| - 1])
  {
  }

  /** Modules for type checkers only do so where there is none yet. */
  lemma {:induction false} AddChecked(s: ModuleSet, ms: seq<Module>, n: string)
    requires forall m :: m in ms ==> m.typeCheckingOnly
    ensures var t := AddModules(s, ms);
            if n !in s && exists m :: m in ms && m.name == n then n in t && t[n] in ms && t[n].name == n
            else (n in t <==> n in s) && (n in t ==> t[n] == s[n])
  {
    if ms != [] {
      var (front, last) := (ms[..|ms| - 1], ms[|ms| - 1]);
      AddChecked(s, front, n);
      assert ms == front + [last] && last in ms;
      hide AddModules;
      StepAdds(s, ms);
    }
  }

  /** Imports for type checkers, some before others, and then the rest, some after
      others. */
  function Leaning(a: seq<Module>, b: seq<Module>, x: seq<Module>, y: seq<Module>): seq<Module> {
    a + b + x + y
  }

  ghost predicate HasName(ms: seq<Module>, n: string) {
    exists m :: m in ms && m.name == n
  }

  lemma LeaningStands(a: seq<Module>, b: seq<Module>, x: seq<Module>, y: seq<Module>, n: string)
    requires forall m :: m in a || m in b ==> m.typeCheckingOnly
    requires forall m :: m in x || m in y ==> !m.typeCheckingOnly
    requires HasName(a, n) || HasName(b, n) || HasName(x, n) || HasName(y, n)
    ensures var t := AddModules(map[], Leaning(a, b, x, y));
            n in t && t[n].name == n
            && t[n] in (if HasName(y, n) then y else if HasName(x, n) then x else if HasName(a, n) then a else b)
  {
    var r := AddModules(map[], a);
    var s := AddModules(r, b);
    var t := AddModules(s, x);
    AddNone(map[]);
    AddChecked(map[], a, n);
    AddChecked(r, b, n);
    AddRuntime(s, x, n);
    AddRuntime(t, y, n);
    AddConcat(map[], a, b);
    AddConcat(map[], a + b, x);
    AddConcat(map[], a + b + x, y);
    hide AddModules;
  }

  lemma {:induction false} Listed(s: set<Module>) returns (ms: seq<Module>)
    ensures forall m :: m in ms <==> m in s
  {
    if s == {} {
      ms := [];
    } else {
      var m :| m in s;
      var rest := Listed(s - {m});
      ms := [m] + rest;
    }
  }

  /** One file for each import. */
  function Alone(ms: seq<Module>): seq<ParserOutput> {
    seq(|ms|, i requires 0 <= i < |ms| => ParserOutput(ms[i].file, false, [ms[i]], {}))
  }

  lemma {:induction false} AloneKept(ms: seq<Module>, directives: set<string>)
    requires forall m :: m in ms ==> !Ignored(m, {}, directives)
    ensures AllKept(Alone(ms), directives) == ms
  {
    hide Ignored;
    if ms != [] {
      var (front, last) := (ms[..|ms| - 1], ms[|ms| - 1]);
      assert Alone(ms)[..|ms| - 1] == Alone(front) && last in ms;
      AloneKept(front, directives);
      KeptAlone(last, directives);
      assert ms == front + [last];
    }
  }

  lemma AloneAreImports(ms: seq<Module>, imports: set<Module>, directives: set<string>)
    requires forall m :: m in ms <==> m in imports
    requires forall m :: m in imports ==> !Ignored(m, {}, directives)
    ensures AreImports(Alone(ms), directives, imports) && Collected(Alone(ms), directives) == AddModules(map[], ms)
  {
    AloneKept(ms, directives);
    forall m ensures Counts(Alone(ms), directives, m) <==> m in imports { AllKeptAre(Alone(ms), directives, m); }
    hide Ignored, AllKept, Counts, Alone;
  }

  /** The imports that ask for `x` and the others, for type checkers and for everyone. */
  datatype Quarters = Quarters(checked: seq<Module>, unchecked: seq<Module>, plain: seq<Module>, other: seq<Module>)

  ghost predicate AreQuarters(q: Quarters, imports: set<Module>, c: Setting, x: string) {
    && (forall m :: m in q.checked <==> m in imports && m.typeCheckingOnly && AskOf(c, m) == Some(x))
    && (forall m :: m in q.unchecked <==> m in imports && m.typeCheckingOnly && AskOf(c, m) != Some(x))
    && (forall m :: m in q.plain <==> m in imports && !m.typeCheckingOnly && AskOf(c, m) == Some(x))
    && (forall m :: m in q.other <==> m in imports && !m.typeCheckingOnly && AskOf(c, m) != Some(x))
  }

  lemma QuarterImports(imports: set<Module>, c: Setting, x: string) returns (q: Quarters)
    ensures AreQuarters(q, imports, c, x)
  {
    hide AskOf;
    var checked := Listed(set m | m in imports && m.typeCheckingOnly && AskOf(c, m) == Some(x));
    var unchecked := Listed(set m | m in imports && m.typeCheckingOnly && AskOf(c, m) != Some(x));
    var plain := Listed(set m | m in imports && !m.typeCheckingOnly && AskOf(c, m) == Some(x));
    var other := Listed(set m | m in imports && !m.typeCheckingOnly && AskOf(c, m) != Some(x));
    q := Quarters(checked, unchecked, plain, other);
  }

  /** An order in which an import that asks for `x` stands wherever one can. */
  function Towards(q: Quarters): seq<Module> {
    Leaning(q.checked, q.unchecked, q.other, q.plain)
  }

  /** An order in which one that does not stands wherever one can. */
  function Away(q: Quarters): seq<Module> {
    Leaning(q.unchecked, q.checked, q.plain, q.other)
  }

  lemma QuartersAreAll(q: Quarters, imports: set<Module>, c: Setting, x: string)
    requires AreQuarters(q, imports, c, x)
    ensures forall m :: m in Towards(q) <==> m in imports
    ensures forall m :: m in Away(q) <==> m in imports
  {
    hide AskOf;
  }

  lemma LeansTowards(q: Quarters, imports: set<Module>, c: Setting, x: string, m: Module)
    requires AreQuarters(q, imports, c, x) && CanStand(imports, m) && AskOf(c, m) == Some(x)
    ensures var t := AddModules(map[], Towards(q));
            m.name in t && AskOf(c, t[m.name]) == Some(x) && t[m.name].typeCheckingOnly == m.typeCheckingOnly
  {
    hide AskOf, AddModules, Leaning;
    var n := m.name;
    if m.typeCheckingOnly {
      assert m in q.checked;
      assert !HasName(q.plain, n) && !HasName(q.other, n);
    } else {
      assert m in q.plain;
    }
    LeaningStands(q.checked, q.unchecked, q.other, q.plain, n);
  }

  lemma LeansAway(q: Quarters, imports: set<Module>, c: Setting, x: string, n: string)
    requires AreQuarters(q, imports, c, x)
    requires var t := AddModules(map[], Away(q)); n in t && AskOf(c, t[n]) == Some(x)
    ensures IsSettled(imports, c, AddModules(map[], Away(q))[n])
  {
    NamesOf(Away(q), n);
    hide AskOf, AddModules;
    LeaningStands(q.unchecked, q.checked, q.plain, q.other, n);
    hide Leaning;
    var e := AddModules(map[], Away(q))[n];
    if e.typeCheckingOnly {
      assert e in q.checked && !HasName(q.plain, n) && !HasName(q.other, n) && !HasName(q.unchecked, n);
    } else {
      assert e in q.plain && !HasName(q.other, n);
    }
    assert CanStand(imports, e);
  }

  lemma {:induction false} NamesOf(ms: seq<Module>, n: string)
    requires n in AddModules(map[], ms)
    ensures HasName(ms, n)
  {
    if ms == [] {
      AddNone(map[]);
    } else {
      var (front, last) := (ms[..|ms| - 1], ms[|ms| - 1]);
      assert ms == front + [last] && last in ms;
      StepAdds(map[], ms);
      if n in AddModules(map[], front) { NamesOf(front, n); }
    }
  }

  lemma MergedIs(results: seq<ParserOutput>, directives: set<string>, imports: set<Module>, c: Setting)
    requires AreImports(results, directives, imports) && ByName(RenamedSet(imports, c.pythonPackage, c.siblings, c.on))
    ensures Stands(Collected(results, directives), imports)
    ensures AsksOfMerged(AsksFinally(results, directives, c), Collected(results, directives), c)
  {
    hide AddModules, AllKept, InOrder, AllRenamed, AsksOf, AsksOfMerged, Stands, AreImports, ByName, RenamedSet,
         Renamed;
    var s := Collected(results, directives);
    CollectedStands(results, directives);
    KeptAreImports(results, directives, imports);
    RenamedStands(s, c.pythonPackage, c.siblings, c.on);
    ValuesAreImports(s, imports);
    FinalAsks(s, Final(results, directives, c.pythonPackage, c.siblings, c.on), imports, c);
  }

  lemma UncoveredDiffer(imports: set<Module>, directives: set<string>, c: Setting)
    returns (a: seq<ParserOutput>, b: seq<ParserOutput>)
    requires forall m :: m in imports ==> !Ignored(m, {}, directives)
    requires ByName(RenamedSet(imports, c.pythonPackage, c.siblings, c.on)) && !IsCovered(imports, c)
    ensures AreImports(a, directives, imports) && AreImports(b, directives, imports)
    ensures AsksFinally(a, directives, c) != AsksFinally(b, directives, c)
  {
    var m :| CanStand(imports, m) && AskOf(c, m).Some? && !HasCover(imports, c, m);
    var x := AskOf(c, m).value;
    hide *;
    var q := QuarterImports(imports, c, x);
    QuartersAreAll(q, imports, c, x);
    a, b := Alone(Towards(q)), Alone(Away(q));
    AloneAreImports(Towards(q), imports, directives);
    AloneAreImports(Away(q), imports, directives);
    MergedIs(a, directives, imports, c);
    MergedIs(b, directives, imports, c);
    LeansTowards(q, imports, c, x, m);
    var s, t := Collected(a, directives), Collected(b, directives);
    forall n | n in t && AskOf(c, t[n]) == Some(x) ensures t[n].typeCheckingOnly && !m.typeCheckingOnly {
      LeansAway(q, imports, c, x, n);
      SettledCovers(imports, c, t[n], m);
    }
    AskedInOne(s, t, c, AsksFinally(a, directives, c), AsksFinally(b, directives, c), m, x);
  }

  lemma SettledCovers(imports: set<Module>, c: Setting, n: Module, m: Module)
    requires IsSettled(imports, c, n) && AskOf(c, n) == AskOf(c, m) && !HasCover(imports, c, m)
    ensures n.typeCheckingOnly && !m.typeCheckingOnly
  {
    hide AskOf, IsSettled;
  }

  lemma AskedInOne(s: ModuleSet, t: ModuleSet, c: Setting, a: Asks, b: Asks, m: Module, x: string)
    requires AsksOfMerged(a, s, c) && AsksOfMerged(b, t, c)
    requires m.name in s && AskOf(c, s[m.name]) == Some(x) && s[m.name].typeCheckingOnly == m.typeCheckingOnly
    requires forall n :: n in t && AskOf(c, t[n]) == Some(x) ==> t[n].typeCheckingOnly && !m.typeCheckingOnly
    ensures a != b
  {
    hide AskOf;
    assert s[m.name] in s.Values;
  }

  /** For any imports that nothing ignores: every two arrivals of them, in whatever
      files, give the same dependencies however imports are resolved, exactly when
      whatever an import that can stand for its name asks for is asked for in every
      order. */
  lemma EveryOrderIff(imports: set<Module>, directives: set<string>, c: Setting)
    requires forall m :: m in imports ==> !Ignored(m, {}, directives)
    requires ByName(RenamedSet(imports, c.pythonPackage, c.siblings, c.on))
    ensures (forall a, b :: AreImports(a, directives, imports) && AreImports(b, directives, imports) ==>
               SameDeps(FinalIn(a, directives, c), FinalIn(b, directives, c), c.pkg, c.relative))
            <==> IsCovered(imports, c)
  {
    hide Ignored, ByName, RenamedSet, AreImports, FinalIn, AsksOf, IsCovered, SameDeps;
    if IsCovered(imports, c) {
      forall a, b | AreImports(a, directives, imports) && AreImports(b, directives, imports)
        ensures SameDeps(FinalIn(a, directives, c), FinalIn(b, directives, c), c.pkg, c.relative)
      {
        MergedIs(a, directives, imports, c);
        MergedIs(b, directives, imports, c);
        CoveredAgree(Collected(a, directives), Collected(b, directives), imports, c, AsksFinally(a, directives, c),
            AsksFinally(b, directives, c));
        SameDepsIff(FinalIn(a, directives, c), FinalIn(b, directives, c), c.pkg, c.relative);
      }
    } else {
      var a, b := UncoveredDiffer(imports, directives, c);
      SameDepsIff(FinalIn(a, directives, c), FinalIn(b, directives, c), c.pkg, c.relative);
    }
  }
}
