/** What relative imports mean to Python, and where resolving them leads instead. */
module PythonImports {
  import opened Text
  import ModuleMap
  import opened RelativeImports
  import opened Dependencies
  import Resolver

  // ---------------------------------------------------------------- folders

  /** The folders from the repository root down to a package. */
  function Folders(pkg: string): seq<string> {
    if pkg == "" then [] else Segments(pkg)
  }

  /** A package as Bazel names it, in a Python project that starts at `root`. */
  predicate IsInProject(root: string, pkg: string) {
    Folders(root) <= Folders(pkg) && forall i :: 0 <= i < |Folders(pkg)| ==> Folders(pkg)[i] != ""
  }

  /** The Python packages from the project's root down to a folder's. */
  function Packages(root: string, folders: seq<string>): seq<string>
    requires Folders(root) <= folders
  {
    folders[|Folders(root)|..]
  }

  datatype PythonFile = PythonFile(folders: seq<string>, name: string)

  /** The name under which a file of the project is indexed. */
  function IndexedAs(root: string, f: PythonFile): string
    requires Folders(root) <= f.folders
  {
    ImportSpec(Dotted(Packages(root, f.folders)), f.name)
  }

  // ----------------------------------------------------------- Python's rule

  /** The package that an import with some leading dots counts from: the first dot is
      the importing file's own package and each further one its parent. An import
      from no package, or from above the top-level one, is refused. */
  function Climb(packages: seq<string>, dots: nat): (r: Option<seq<string>>)
    ensures r.Some? ==> r.value <= packages
  {
    if packages == [] then None
    else if dots <= 1 then Some(packages)
    else Climb(packages[..|packages| - 1], dots - 1)
  }

  /** The parts of a dotted path. */
  function Parts(path: string): seq<string>
    decreases |path|
  {
    var i := LastIndexOf(path, '.');
    if i != -1 then Parts(path[..i]) + [path[i + 1..]] else if path == "" then [] else [path]
  }

  /** The package that an import of a file of `pkg` counts from. */
  function Base(root: string, pkg: string, from: string): Option<seq<string>>
    requires IsInProject(root, pkg)
  {
    Climb(Packages(root, Folders(pkg)), Dots(from))
  }

  /** The package that `from` names there. */
  function PackageOf(root: string, pkg: string, from: string): Option<seq<string>>
    requires IsInProject(root, pkg)
  {
    match Base(root, pkg, from)
    case None => None
    case Some(base) => Some(base + Parts(from[Dots(from)..]))
  }

  /** `from <from> import <id>` for a module `id`: its file. */
  function Submodule(root: string, pkg: string, from: string, id: string): (f: Option<PythonFile>)
    requires IsInProject(root, pkg)
    ensures f.Some? ==> Folders(root) <= f.value.folders
  {
    match PackageOf(root, pkg, from)
    case None => None
    case Some(packages) => Some(PythonFile(Folders(root) + packages, id + ".py"))
  }

  /** The same for something defined in the module that `from` names, which is a
      package or, below one, a file. */
  function ModuleFile(root: string, pkg: string, from: string, isPackage: bool): (f: Option<PythonFile>)
    requires IsInProject(root, pkg)
    ensures f.Some? ==> Folders(root) <= f.value.folders
  {
    match PackageOf(root, pkg, from)
    case None => None
    case Some(packages) =>
      if isPackage || Dots(from) == |from| then Some(PythonFile(Folders(root) + packages, "__init__.py"))
      else
        assert packages != [];
        Some(PythonFile(Folders(root) + packages[..|packages| - 1], packages[|packages| - 1] + ".py"))
  }

  // ------------------------------------------------------------------- names

  lemma {:induction false} DottedConcat(a: seq<string>, b: seq<string>)
    requires a != [] && b != []
    ensures Dotted(a + b) == Dotted(a) + "." + Dotted(b)
  {
    var (all, front, last) := (a + b, b[..|b| - 1], b[|b| - 1]);
    assert all[..|all| - 1] == a + front && all[|all| - 1] == last && |all| > 1;
    if front == [] {
      assert a + front == a;
    } else {
      DottedConcat(a, front);
      Joined(Dotted(a), Dotted(front), last);
    }
  }

  lemma Joined(a: string, b: string, c: string)
    ensures (a + "." + b) + "." + c == a + "." + (b + "." + c)
  {
  }

  lemma {:induction false} PartsDotted(path: string)
    requires path != "" && path[0] != '.'
    ensures Parts(path) != [] && Dotted(Parts(path)) == path
    decreases |path|
  {
    var i := LastIndexOf(path, '.');
    if i == -1 {
      assert Parts(path) == [path];
    } else {
      var (front, last) := (path[..i], path[i + 1..]);
      assert Parts(path) == Parts(front) + [last];
      PartsDotted(front);
      hide *;
      DottedConcat(Parts(front), [last]);
      DottedOne(last);
      AtDot(path, i);
    }
  }

  lemma AtDot(path: string, i: nat)
    requires i < |path| && path[i] == '.'
    ensures path[..i] + "." + path[i + 1..] == path
  {
  }

  lemma DottedOne(part: string)
    ensures Dotted([part]) == part
  {
  }

  lemma {:induction false} DottedNotEmpty(parts: seq<string>)
    requires parts != [] && parts[0] != ""
    ensures Dotted(parts) != ""
  {
    if |parts| > 1 { DottedNotEmpty(parts[..|parts| - 1]); }
  }

  lemma LastPartOf(from: string, id: string)
    requires '.' !in id
    ensures LastPart(from + "." + id) == id
  {
    var name := from + "." + id;
    var i := LastIndexOf(name, '.');
    assert name[|from|] == '.' && (forall k :: |from| < k < |name| ==> name[k] == id[k - |from| - 1]);
    assert i == |from|;
  }

  lemma {:induction false} ClimbIs(packages: seq<string>, dots: nat)
    requires dots > 0
    ensures Climb(packages, dots) == if dots <= |packages| then Some(packages[..|packages| - (dots - 1)]) else None
  {
    if packages != [] && dots > 1 {
      var front := packages[..|packages| - 1];
      ClimbIs(front, dots - 1);
      if dots <= |packages| { assert front[..|front| - (dots - 2)] == packages[..|packages| - (dots - 1)]; }
    } else if packages != [] {
      assert packages[..|packages|] == packages;
    }
  }

  lemma BaseIs(root: string, pkg: string, from: string)
    requires IsInProject(root, pkg) && StartsWith(from, ".")
    ensures Base(root, pkg, from).Some? <==> Dots(from) <= |Packages(root, Folders(pkg))|
    ensures Base(root, pkg, from).Some? ==>
              var base := Base(root, pkg, from).value;
              && base != [] && base[0] != "" && Dots(from) <= |Segments(pkg)|
              && Segments(pkg)[..|Segments(pkg)| - (Dots(from) - 1)] == Folders(root) + base
  {
    var packages := Packages(root, Folders(pkg));
    ClimbIs(packages, Dots(from));
    assert Base(root, pkg, from) == Climb(packages, Dots(from));
    hide *;
    if Dots(from) <= |packages| {
      ProjectSplit(root, pkg);
      DropsInner(Folders(root), packages, Dots(from) - 1);
    }
  }

  lemma ProjectSplit(root: string, pkg: string)
    requires IsInProject(root, pkg) && Packages(root, Folders(pkg)) != []
    ensures var packages := Packages(root, Folders(pkg));
            packages[0] != "" && Segments(pkg) == Folders(pkg) == Folders(root) + packages
  {
    var folders := Folders(pkg);
    assert folders == Segments(pkg);
    assert folders[|Folders(root)|] != "";
    hide Segments, Folders;
  }

  lemma DropsInner(a: seq<string>, b: seq<string>, n: nat)
    requires n < |b|
    ensures (a + b)[..|a + b| - n] == a + b[..|b| - n]
  {
  }

  lemma PartsRegrouped(folders: seq<string>, path: string, id: string)
    requires folders != [] && (path != "" ==> path[0] != '.')
    ensures Dotted(folders + Inside(path, id)) == Dotted(folders + Parts(path) + [id])
  {
    if path == "" {
      assert Parts(path) == [] && Inside(path, id) == [id];
      assert folders + [] + [id] == folders + [id];
    } else {
      PartsDotted(path);
      assert Inside(path, id) == [path, id];
      hide Dotted, Parts, Inside;
      assert folders + [path, id] == (folders + [path]) + [id];
      DottedConcat(folders + [path], [id]);
      DottedConcat(folders, [path]);
      DottedConcat(folders + Parts(path), [id]);
      DottedConcat(folders, Parts(path));
      DottedOne(path);
    }
  }

  lemma AbsoluteIs(pkg: string, from: string, id: string)
    requires StartsWith(from, ".") && Dots(from) <= |Segments(pkg)| + 1 && '.' !in id
    ensures Absolute(pkg, from, from + "." + id)
            == Some(Dotted(Segments(pkg)[..|Segments(pkg)| - (Dots(from) - 1)] + Inside(from[Dots(from)..], id)))
  {
    LastPartOf(from, id);
    hide Dotted, Segments, Inside, Dots, LastPart;
  }

  lemma PackageIs(root: string, pkg: string, from: string)
    requires IsInProject(root, pkg) && StartsWith(from, ".") && PackageOf(root, pkg, from).Some?
    ensures Base(root, pkg, from).Some?
    ensures var (base, packages) := (Base(root, pkg, from).value, PackageOf(root, pkg, from).value);
            base != [] && packages == base + Parts(from[Dots(from)..]) && packages != [] && packages[0] == base[0] != ""
    ensures Dots(from) < |from| ==> from[Dots(from)] != '.'
  {
    BaseIs(root, pkg, from);
    hide Base, Parts, Segments, Folders, Packages, IsInProject;
  }

  lemma Regrouped(a: seq<string>, b: seq<string>, c: seq<string>, d: seq<string>)
    requires b == c + d
    ensures a + c + d == a + b
  {
  }

  /** What is asked for, where Python accepts the import: the whole path from the root
      of the repository. */
  lemma AskedIs(root: string, pkg: string, from: string, id: string)
    requires IsInProject(root, pkg) && StartsWith(from, ".") && '.' !in id && PackageOf(root, pkg, from).Some?
    ensures var packages := PackageOf(root, pkg, from).value;
            && packages != [] && packages[0] != ""
            && Absolute(pkg, from, from + "." + id) == Some(Dotted(Folders(root) + packages + [id]))
  {
    hide *;
    PackageIs(root, pkg, from);
    BaseIs(root, pkg, from);
    AbsoluteIs(pkg, from, id);
    var base, path := Base(root, pkg, from).value, from[Dots(from)..];
    PartsRegrouped(Folders(root) + base, path, id);
    Regrouped(Folders(root), PackageOf(root, pkg, from).value, base, Parts(path));
  }

  lemma SpecOf(packages: seq<string>, name: string)
    requires packages != [] && packages[0] != ""
    ensures ImportSpec(Dotted(packages), name + ".py") == if name == "__init__" then Dotted(packages)
            else Dotted(packages + [name])
  {
    DottedNotEmpty(packages);
    DottedConcat(packages, [name]);
    var file := name + ".py";
    assert EndsWith(file, ".py") && file[..|file| - 3] == name;
    assert "__init__" + ".py" == "__init__.py";
    if file == "__init__.py" { assert name == "__init__.py"[..8] == "__init__"; }
  }

  /** Longer by the folders above the project, or by the last part. */
  lemma LongerPath(above: seq<string>, packages: seq<string>, id: string)
    requires packages != []
    ensures Dotted(above + packages) == Dotted(packages) <==> above == []
    ensures Dotted(above + packages + [id]) == Dotted(packages + [id]) <==> above == []
    ensures Dotted(above + packages + [id]) != Dotted(packages)
  {
    hide Dotted;
    DottedConcat(above + packages, [id]);
    DottedConcat(packages, [id]);
    if above != [] { DottedConcat(above, packages); } else { assert above + packages == packages; }
  }

  function Indexed(root: string, f: Option<PythonFile>): Option<string>
    requires f.Some? ==> Folders(root) <= f.value.folders
  {
    match f case None => None case Some(file) => Some(IndexedAs(root, file))
  }

  // --------------------------------------------------- where resolving leads

  /** A relative import of a module asks for the name under which the module's file is
      indexed, or for nothing where Python refuses the import, exactly under this
      condition: if the dots stay among the packages of the project, the project must
      be the whole repository (and the module not an `__init__`); if they climb past
      the top-level one, they must go past the repository's root and one more. */
  lemma RelativeReachesIff(root: string, pkg: string, from: string, id: string)
    requires IsInProject(root, pkg) && StartsWith(from, ".") && '.' !in id
    ensures Absolute(pkg, from, from + "." + id) == Indexed(root, Submodule(root, pkg, from, id)) <==>
              if Dots(from) <= |Packages(root, Folders(pkg))| then root == "" && id != "__init__"
              else Dots(from) > |Segments(pkg)| + 1
  {
    BaseIs(root, pkg, from);
    if Base(root, pkg, from).Some? {
      var inner := PackageOf(root, pkg, from).value;
      AskedIs(root, pkg, from, id);
      SpecOf(inner, id);
      LongerPath(Folders(root), inner, id);
      assert Packages(root, Folders(root) + inner) == inner;
      assert Folders(root) == [] <==> root == "";
      hide Absolute, Dots, Dotted, Segments, ImportSpec, Base, PackageOf, Folders, IsInProject, StartsWith;
    } else {
      hide Dots, Dotted, Segments, Base;
    }
  }

  /** Where the module only defines the name, resolving goes on to the next candidate,
      which is the name of the module's own file under the same condition. */
  lemma DefiningReachesIff(root: string, pkg: string, from: string, id: string, isPackage: bool)
    requires IsInProject(root, pkg) && StartsWith(from, ".") && '.' !in id && PackageOf(root, pkg, from).Some?
    ensures var asked := Absolute(pkg, from, from + "." + id);
            var f := ModuleFile(root, pkg, from, isPackage);
            && asked.Some? && f.Some?
            && (ModuleMap.Parent(asked.value) == Some(IndexedAs(root, f.value)) <==>
                root == "" && (f.value.name == "__init__.py" ==> isPackage || Dots(from) == |from|))
  {
    var inner := PackageOf(root, pkg, from).value;
    AskedIs(root, pkg, from, id);
    ParentOfAsked(Folders(root) + inner, id);
    DefiningIs(root, pkg, from, isPackage);
    LongerPath(Folders(root), inner, id);
    hide Absolute, Dots, Dotted, Segments, Climb, Parts, ModuleFile, IndexedAs, PackageOf, ModuleMap.Parent,
         IsInProject, StartsWith;
  }

  lemma ParentOfAsked(packages: seq<string>, id: string)
    requires packages != [] && '.' !in id
    ensures ModuleMap.Parent(Dotted(packages + [id])) == Some(Dotted(packages))
  {
    DottedConcat(packages, [id]);
    DottedOne(id);
    LastDot(Dotted(packages), id);
  }

  lemma DefiningIs(root: string, pkg: string, from: string, isPackage: bool)
    requires IsInProject(root, pkg) && StartsWith(from, ".") && PackageOf(root, pkg, from).Some?
    ensures var packages := PackageOf(root, pkg, from).value;
            var f := ModuleFile(root, pkg, from, isPackage);
            && f.Some?
            && if f.value.name == "__init__.py" ==> isPackage || Dots(from) == |from|
                 then IndexedAs(root, f.value) == Dotted(packages)
               else IndexedAs(root, f.value) != Dotted(Folders(root) + packages)
  {
    PackageIs(root, pkg, from);
    var packages := PackageOf(root, pkg, from).value;
    hide Dots, Dotted, Parts, Segments, Folders, Base, PackageOf, IsInProject, IndexedAs;
    if isPackage || Dots(from) == |from| {
      PackageFile(root, packages);
    } else {
      DefiningFileOf(packages, Base(root, pkg, from).value, from[Dots(from)..]);
      DefiningFile(root, packages);
    }
  }

  lemma LastApart(a: seq<string>, b: seq<string>)
    requires b != []
    ensures b[..|b| - 1] + [b[|b| - 1]] == b && a + b[..|b| - 1] + [b[|b| - 1]] == a + b
  {
  }

  lemma DefiningFileOf(packages: seq<string>, base: seq<string>, path: string)
    requires base != [] && base[0] != "" && path != "" && path[0] != '.' && packages == base + Parts(path)
    ensures |packages| > 1 && packages[..|packages| - 1][0] != ""
  {
    PartsDotted(path);
  }

  lemma PackageFile(root: string, packages: seq<string>)
    requires packages != [] && packages[0] != ""
    ensures IndexedAs(root, PythonFile(Folders(root) + packages, "__init__.py")) == Dotted(packages)
  {
    DottedNotEmpty(packages);
    hide Dotted, Folders;
    assert Packages(root, Folders(root) + packages) == packages;
  }

  lemma DefiningFile(root: string, packages: seq<string>)
    requires |packages| > 1 && packages[..|packages| - 1][0] != ""
    ensures var (front, last) := (packages[..|packages| - 1], packages[|packages| - 1]);
            var index := IndexedAs(root, PythonFile(Folders(root) + front, last + ".py"));
            if last + ".py" == "__init__.py" then index != Dotted(Folders(root) + packages)
                else index == Dotted(packages)
  {
    var (front, last) := (packages[..|packages| - 1], packages[|packages| - 1]);
    LastApart(Folders(root), packages);
    FileIndexed(root, front, last);
    hide *;
    LongerPath(Folders(root), front, last);
    InitFile(last);
  }

  lemma FileIndexed(root: string, front: seq<string>, last: string)
    requires front != [] && front[0] != ""
    ensures IndexedAs(root, PythonFile(Folders(root) + front, last + ".py")) == if last == "__init__"
            then Dotted(front) else Dotted(front + [last])
  {
    SpecOf(front, last);
    hide Dotted, Folders, ImportSpec;
    assert Packages(root, Folders(root) + front) == front;
  }

  lemma InitFile(name: string)
    ensures name + ".py" == "__init__.py" <==> name == "__init__"
  {
    assert "__init__" + ".py" == "__init__.py";
    if name + ".py" == "__init__.py" { assert name == (name + ".py")[..|name|] == "__init__.py"[..8] == "__init__"; }
  }

  lemma LastDot(front: string, id: string)
    requires '.' !in id
    ensures ModuleMap.Parent(front + "." + id) == Some(front)
  {
    var name := front + "." + id;
    var i := LastIndexOf(name, '.');
    assert name[|front|] == '.' && (forall k :: |front| < k < |name| ==> name[k] == id[k - |front| - 1]);
    assert i == |front| && name[..i] == front;
  }

  // ------------------------------------------------------------ where it fails

  /** One dot more than there are packages: Python refuses the import, and yet it is
      looked for, as if it were absolute. */
  lemma PastTheTop(pkg: string, from: string, id: string)
    requires IsInProject("", pkg) && pkg != "" && StartsWith(from, ".") && '.' !in id
             && Dots(from) == |Folders(pkg)| + 1
    ensures Submodule("", pkg, from, id) == None
    ensures Absolute(pkg, from, from + "." + id) == Some(Dotted(Inside(from[Dots(from)..], id)))
  {
    BaseIs("", pkg, from);
    AbsoluteIs(pkg, from, id);
    hide Dotted, Dots, Inside, Absolute, Base;
    assert Segments(pkg)[..0] + Inside(from[Dots(from)..], id) == Inside(from[Dots(from)..], id);
  }

  /** The same in the root package, where the name that is looked for gets a dot in
      front. */
  lemma InRootPackage(from: string, id: string)
    requires StartsWith(from, ".") && '.' !in id && Dots(from) == 1
    ensures IsInProject("", "") && Submodule("", "", from, id) == None
    ensures Absolute("", from, from + "." + id) == Some("." + Dotted(Inside(from[1..], id)))
  {
    RootRefuses(from, id);
    hide *;
    RootSegments();
    AbsoluteIs("", from, id);
    DotInFront(Segments("")[..1], Inside(from[1..], id));
  }

  lemma RootRefuses(from: string, id: string)
    ensures IsInProject("", "") && Submodule("", "", from, id) == None
  {
    assert Packages("", Folders("")) == [];
  }

  lemma RootSegments()
    ensures |Segments("")| == 1 && Segments("")[..1] == [""]
  {
    assert Segments("") == [""];
  }

  lemma DotInFront(root: seq<string>, parts: seq<string>)
    requires root == [""] && parts != []
    ensures Dotted(root + parts) == "." + Dotted(parts)
  {
    DottedConcat(root, parts);
    DottedOne("");
    hide Dotted;
    assert "" + "." + Dotted(parts) == "." + Dotted(parts);
  }

  predicate IsPlain(name: string) {
    name != "" && '/' !in name && '.' !in name
  }

  /** A repository that has one indexed file, `src/foo/bar.py` of a project at `src`
      with whatever names. */
  function InSource(src: string, foo: string, bar: string, from: string): Resolver.Env {
    var index := map[foo + "." + bar := [Resolver.FindResult(Resolver.Label("", src + "/" + foo, bar), {})]];
    Resolver.Env(Resolver.Label("", src + "/" + foo, from), map[], [], index, {}, false, src)
  }

  lemma SourceFolders(src: string, foo: string)
    requires IsPlain(src) && IsPlain(foo)
    ensures Folders(src) == [src] && Folders(src + "/" + foo) == [src, foo] && IsInProject(src, src + "/" + foo)
  {
    var pkg := src + "/" + foo;
    assert pkg[|src|] == '/' && (forall k :: |src| < k < |pkg| ==> pkg[k] == foo[k - |src| - 1]);
    assert LastIndexOf(pkg, '/') == |src| && pkg[..|src|] == src && pkg[|src| + 1..] == foo;
    assert Segments(src) == [src];
    assert Segments(pkg) == [src] + [foo] == [src, foo];
  }

  lemma SourcePackage(src: string, foo: string, bar: string)
    requires IsPlain(src) && IsPlain(foo) && IsPlain(bar)
    ensures IsInProject(src, src + "/" + foo) && Dots("." + bar) == 1 && ("." + bar)[1..] == bar
    ensures PackageOf(src, src + "/" + foo, "." + bar) == Some([foo, bar])
  {
    var from := "." + bar;
    SourceFolders(src, foo);
    assert from[1..] == bar && Dots(from) == 1 && from[Dots(from)..] == bar;
    assert LastIndexOf(bar, '.') == -1;
    assert Parts(bar) == [bar];
    hide Dots, Segments, Folders, Parts;
    assert Packages(src, [src, foo]) == [foo];
    assert [foo] + [bar] == [foo, bar];
  }

  lemma SourceFile(src: string, foo: string, bar: string)
    requires IsPlain(src) && IsPlain(foo) && IsPlain(bar) && bar != "__init__"
    ensures IsInProject(src, src + "/" + foo) && Folders(src) <= [src, foo]
    ensures ModuleFile(src, src + "/" + foo, "." + bar, false) == Some(PythonFile([src, foo], bar + ".py"))
    ensures IndexedAs(src, PythonFile([src, foo], bar + ".py")) == foo + "." + bar
  {
    SourceFolders(src, foo);
    SourcePackage(src, foo, bar);
    hide PackageOf, Dots, Segments, Folders, Dotted, ImportSpec;
    assert [foo, bar][..1] == [foo] && [src] + [foo] == [src, foo] && [foo] + [bar] == [foo, bar];
    assert Packages(src, [src, foo]) == [foo];
    SpecOf([foo], bar);
    DottedConcat([foo], [bar]);
    DottedOne(foo);
    DottedOne(bar);
  }

  lemma SourceAsked(src: string, foo: string, bar: string, id: string)
    requires IsPlain(src) && IsPlain(foo) && IsPlain(bar) && '.' !in id
    ensures Absolute(src + "/" + foo, "." + bar, "." + bar + "." + id) == Some(src + "." + foo + "." + bar + "." + id)
  {
    SourceFolders(src, foo);
    SourcePackage(src, foo, bar);
    AskedIs(src, src + "/" + foo, "." + bar, id);
    hide PackageOf, Dots, Segments, Folders, Dotted, Absolute, IsInProject;
    assert [src] + [foo, bar] + [id] == [src, foo, bar, id];
    DottedFour(src, foo, bar, id);
  }

  lemma DottedFour(a: string, b: string, c: string, d: string)
    ensures Dotted([a, b, c, d]) == a + "." + b + "." + c + "." + d
  {
    assert [a, b, c, d][..3] == [a, b, c] && [a, b, c][..2] == [a, b] && [a, b][..1] == [a];
    assert Dotted([a, b]) == a + "." + b;
    assert Dotted([a, b, c]) == a + "." + b + "." + c;
  }

  lemma NotIndexed(src: string, foo: string, bar: string, from: string, name: string)
    requires name != foo + "." + bar
    ensures Resolver.Candidate(InSource(src, foo, bar, from), name) == Resolver.Next(false)
  {
  }

  /** None of the candidates is the file's own name. */
  lemma OtherNames(src: string, foo: string, bar: string, id: string)
    requires IsPlain(src) && IsPlain(foo) && IsPlain(bar) && '.' !in id && src != foo
    ensures src != foo + "." + bar && src + "." + foo != foo + "." + bar
    ensures src + "." + foo + "." + bar != foo + "." + bar && src + "." + foo + "." + bar + "." + id != foo + "." + bar
  {
    LastDot(foo, bar);
    LastDot(src, foo);
    LastDot(src + "." + foo, bar);
    LastDot(src + "." + foo + "." + bar, id);
    assert (foo + "." + bar)[|foo|] == '.' && (src + "." + foo)[|src|] == '.'
           && (src + "." + foo + "." + bar)[|src|] == '.';
    hide ModuleMap.Parent;
  }

  lemma SourceNotFound(src: string, foo: string, bar: string, from: string, id: string)
    requires IsPlain(src) && IsPlain(foo) && IsPlain(bar) && '.' !in id && src != foo
    ensures Resolver.Walk(InSource(src, foo, bar, from), src + "." + foo + "." + bar + "." + id, false)
            == Resolver.NoDependency
  {
    var env := InSource(src, foo, bar, from);
    OtherNames(src, foo, bar, id);
    NotIndexed(src, foo, bar, from, src);
    NotIndexed(src, foo, bar, from, src + "." + foo);
    NotIndexed(src, foo, bar, from, src + "." + foo + "." + bar);
    NotIndexed(src, foo, bar, from, src + "." + foo + "." + bar + "." + id);
    LastDot(src, foo);
    LastDot(src + "." + foo, bar);
    LastDot(src + "." + foo + "." + bar, id);
    assert ModuleMap.Parent(src) == None;
    hide Resolver.Candidate, ModuleMap.Parent, InSource, IsPlain;
    assert Resolver.Walk(env, src, false) == Resolver.NoDependency;
    assert Resolver.Walk(env, src + "." + foo, false) == Resolver.NoDependency;
    assert Resolver.Walk(env, src + "." + foo + "." + bar, false) == Resolver.NoDependency;
  }

  /** `from .bar import x` in package `src/foo` of a project at `src`: Python reads the
      file, but the import does not come to its rule. */
  lemma BelowProjectRoot(src: string, foo: string, bar: string, from: string, id: string)
    requires IsPlain(src) && IsPlain(foo) && IsPlain(bar) && bar != "__init__" && '.' !in id && src != foo
    ensures var pkg := src + "/" + foo;
            var file := PythonFile([src, foo], bar + ".py");
            var asked := Absolute(pkg, "." + bar, "." + bar + "." + id);
            && IsInProject(src, pkg) && Folders(src) <= file.folders
            && ModuleFile(src, pkg, "." + bar, false) == Some(file)
            && IndexedAs(src, file) in InSource(src, foo, bar, from).index
            && asked.Some? && Resolver.Walk(InSource(src, foo, bar, from), asked.value, false) == Resolver.NoDependency
  {
    SourceFile(src, foo, bar);
    SourceAsked(src, foo, bar, id);
    SourceNotFound(src, foo, bar, from, id);
    hide IsInProject, ModuleFile, Absolute, IndexedAs, Resolver.Walk, Folders;
  }
}
