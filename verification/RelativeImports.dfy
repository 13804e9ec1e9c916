/** The names that imports ask for, relative ones included. */
module RelativeImports {
  import opened Text
  import opened TypeChecking

  predicate IsRelative(m: Module) {
    StartsWith(m.from, ".")
  }

  /** The package part of a relative import; empty for all others. */
  function Origin(m: Module): string {
    if IsRelative(m) then m.from else ""
  }

  /** The number of leading dots. */
  function Dots(from: string): (n: nat)
    ensures n > 0 <==> StartsWith(from, ".")
    ensures n <= |from| && (forall i :: 0 <= i < n ==> from[i] == '.') && (n < |from| ==> from[n] != '.')
  {
    if from != "" && from[0] == '.' then 1 + Dots(from[1..]) else 0
  }

  /** The parts of a package path. The root package has one, which is empty. */
  function Segments(pkg: string): (parts: seq<string>)
    ensures |parts| > 0
    decreases |pkg|
  {
    var i := LastIndexOf(pkg, '/');
    if i == -1 then [pkg] else Segments(pkg[..i]) + [pkg[i + 1..]]
  }

  function Dotted(parts: seq<string>): string {
    if parts == [] then ""
    else if |parts| == 1 then parts[0]
    else Dotted(parts[..|parts| - 1]) + "." + parts[|parts| - 1]
  }

  /** The part after the last dot. */
  function LastPart(name: string): string {
    name[LastIndexOf(name, '.') + 1..]
  }

  /** `from <dots><path> import <id>` below the package that the dots lead to. */
  function Inside(path: string, id: string): (parts: seq<string>)
    ensures parts != []
  {
    (if path == "" then [] else [path]) + [id]
  }

  /** A relative import seen from the root: one dot is the package itself, and each
      further one its parent. Nothing when there are too many. */
  function Absolute(pkg: string, from: string, name: string): Option<string>
    requires StartsWith(from, ".")
  {
    var parts, up := Segments(pkg), Dots(from) - 1;
    if up > |parts| then None else Some(Dotted(parts[..|parts| - up] + Inside(from[Dots(from)..], LastPart(name))))
  }

  /** The name that resolving an import of a file of `pkg` starts from. */
  function Asked(pkg: string, relative: bool, m: Module): Option<string> {
    if !IsRelative(m) then Some(m.name) else if relative then Absolute(pkg, m.from, m.name) else None
  }

  /** An import without a leading dot asks for its name; one with a dot for what the
      dots lead to, where relative imports are resolved at all. */
  lemma AskedIs(pkg: string, relative: bool, m: Module)
    ensures !("." <= m.from) ==> Asked(pkg, relative, m) == Some(m.name)
    ensures "." <= m.from ==> Asked(pkg, relative, m) == if relative then Absolute(pkg, m.from, m.name) else None
  {
  }

  lemma OriginDecides(pkg: string, relative: bool, m: Module, n: Module)
    requires m.name == n.name && Origin(m) == Origin(n)
    ensures Asked(pkg, relative, m) == Asked(pkg, relative, n)
  {
  }

  // ---------------------------------------------------- imports of one name

  /** Imports of one name ask for the same. */
  ghost predicate ByName(ms: set<Module>) {
    forall m, n :: m in ms && n in ms && m.name == n.name ==> Origin(m) == Origin(n)
  }

  lemma ShapedByName(ms: set<Module>)
    requires forall m :: m in ms ==> Shaped(m)
    ensures ByName(ms)
  {
    forall m, n | m in ms && n in ms && m.name == n.name ensures Origin(m) == Origin(n) {
      assert m.from != "" ==> m.from == m.name[..|m.from|];
      assert n.from != "" ==> n.from == n.name[..|n.from|];
    }
  }
}
