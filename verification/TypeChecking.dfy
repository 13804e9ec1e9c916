/** Imports of a parsed Python file, and which of them only type checkers see. */
module TypeChecking {
  import opened Text

  datatype Condition = Name(id: string) | Attribute(of: string, attr: string) | OtherCondition

  /** The syntax tree, with import strings cleaned of blanks and backslashes. An
      `if` has its condition's, its body's and its else clauses' nodes as children. */
  datatype Node =
    | Import(names: seq<string>)
    | ImportFrom(from: string, names: seq<string>)
    | Comment(text: string)
    | If(condition: Condition, children: seq<Node>)
    | Other(children: seq<Node>)

  datatype Module = Module(name: string, from: string, file: string, typeCheckingOnly: bool)

  predicate IsTypeChecking(node: Node) {
    && node.If?
    && (node.condition == Name("TYPE_CHECKING") || node.condition == Attribute("typing", "TYPE_CHECKING"))
  }

  /** The modules that an import statement names. */
  function Named(node: Node, file: string, tc: bool): seq<Module> {
    match node
    case Import(names) => Plain(names, file, tc)
    case ImportFrom(from, names) =>
      if from == "." then []
      else seq(|names|, i requires 0 <= i < |names| => Module(from + "." + names[i], from, file, tc))
    case _ => []
  }

  function Plain(names: seq<string>, file: string, tc: bool): seq<Module> {
    if names == [] then []
    else (if StartsWith(names[0], ".") then [] else [Module(names[0], "", file, tc)]) + Plain(names[1..], file, tc)
  }

  /** The imports below a node, of which `tc` says whether a type-checking block
      is open around it. */
  function ImportsIn(node: Node, file: string, tc: bool): seq<Module>
    decreases node, 0
  {
    if node.If? || node.Other? then ImportsOf(node.children, file, tc || IsTypeChecking(node)) else []
  }

  function ImportsOf(nodes: seq<Node>, file: string, tc: bool): seq<Module>
    decreases nodes
  {
    if nodes == [] then []
    else Named(nodes[0], file, tc) + ImportsIn(nodes[0], file, tc) + ImportsOf(nodes[1..], file, tc)
  }

  lemma {:induction false} ImportsOfSplit(nodes: seq<Node>, i: nat, file: string, tc: bool)
    requires i < |nodes|
    ensures ImportsOf(nodes[..i + 1], file, tc)
            == ImportsOf(nodes[..i], file, tc) + Named(nodes[i], file, tc) + ImportsIn(nodes[i], file, tc)
  {
    hide Named, ImportsIn;
    if i == 0 {
      assert nodes[..1][1..] == [];
    } else {
      ImportsOfSplit(nodes[1..], i - 1, file, tc);
      assert nodes[..i + 1][1..] == nodes[1..][..i] && nodes[..i][1..] == nodes[1..][..i - 1];
    }
  }

  /** The comments below a node, in order; annotations are read off them. */
  function CommentsIn(node: Node): seq<string>
    decreases node, 0
  {
    if node.If? || node.Other? then CommentsOf(node.children) else []
  }

  function CommentsOf(nodes: seq<Node>): seq<string>
    decreases nodes
  {
    if nodes == [] then []
    else (if nodes[0].Comment? then [nodes[0].text] else CommentsIn(nodes[0])) + CommentsOf(nodes[1..])
  }

  lemma {:induction false} CommentsOfSplit(nodes: seq<Node>, i: nat)
    requires i < |nodes|
    ensures CommentsOf(nodes[..i + 1])
            == CommentsOf(nodes[..i]) + if nodes[i].Comment? then [nodes[i].text] else CommentsIn(nodes[i])
  {
    hide CommentsIn;
    if i == 0 {
      assert nodes[..1][1..] == [];
    } else {
      CommentsOfSplit(nodes[1..], i - 1);
      assert nodes[..i + 1][1..] == nodes[1..][..i] && nodes[..i][1..] == nodes[1..][..i - 1];
    }
  }

  class FileParser {
    const file: string
    var inTypeCheckingBlock: bool
    var modules: seq<Module>
    var comments: seq<string>

    constructor (file: string)
      ensures this.file == file && !inTypeCheckingBlock && modules == [] && comments == []
    {
      this.file, inTypeCheckingBlock, modules, comments := file, false, [], [];
    }

    method ParseImport(names: seq<string>)
      modifies this`modules
      ensures modules == old(modules) + Plain(names, file, inTypeCheckingBlock)
    {
      ghost var before := modules;
      for j := 0 to |names|
        invariant modules + Plain(names[j..], file, inTypeCheckingBlock)
                  == before + Plain(names, file, inTypeCheckingBlock)
      {
        assert names[j..][0] == names[j] && names[j..][1..] == names[j + 1..];
        if StartsWith(names[j], ".") { continue; }
        var m := Module(names[j], "", file, inTypeCheckingBlock);
        assert modules + ([m] + Plain(names[j + 1..], file, inTypeCheckingBlock))
               == modules + [m] + Plain(names[j + 1..], file, inTypeCheckingBlock);
        modules := modules + [m];
      }
    }

    method ParseImportFrom(node: Node)
      requires node.ImportFrom? && node.from != "."
      modifies this`modules
      ensures modules == old(modules) + Named(node, file, inTypeCheckingBlock)
    {
      ghost var before := modules;
      ghost var named := Named(node, file, inTypeCheckingBlock);
      for j := 0 to |node.names|
        invariant modules == before + named[..j]
      {
        assert named[..j + 1] == named[..j] + [named[j]];
        modules := modules + [Module(node.from + "." + node.names[j], node.from, file, inTypeCheckingBlock)];
      }
    }

    /** `parseImportStatements`. */
    method ParseImportStatements(node: Node) returns (isImport: bool)
      modifies this`modules
      ensures isImport == (node.Import? || node.ImportFrom?)
      ensures modules == old(modules) + Named(node, file, inTypeCheckingBlock)
    {
      hide Plain;
      isImport := node.Import? || node.ImportFrom?;
      if node.Import? {
        ParseImport(node.names);
      } else if node.ImportFrom? && node.from != "." {
        ParseImportFrom(node);
      }
    }

    method ParseComments(node: Node) returns (isComment: bool)
      modifies this`comments
      ensures isComment == node.Comment?
      ensures comments == old(comments) + if node.Comment? then [node.text] else []
    {
      isComment := node.Comment?;
      if isComment { comments := comments + [node.text]; }
    }

    /** `parse`: opens the flag for a type-checking block and restores it. */
    method Parse(node: Node)
      modifies this
      ensures inTypeCheckingBlock == old(inTypeCheckingBlock)
      ensures modules == old(modules) + ImportsIn(node, file, old(inTypeCheckingBlock))
      ensures comments == old(comments) + CommentsIn(node)
      decreases node
    {
      hide Named, IsTypeChecking, ImportsOf, CommentsOf;
      var wasInTypeCheckingBlock := inTypeCheckingBlock;
      if IsTypeChecking(node) { inTypeCheckingBlock := true; }
      if node.If? || node.Other? { ParseChildren(node.children); }
      inTypeCheckingBlock := wasInTypeCheckingBlock;
    }

    method ParseChildren(nodes: seq<Node>)
      modifies this
      ensures inTypeCheckingBlock == old(inTypeCheckingBlock)
      ensures modules == old(modules) + ImportsOf(nodes, file, inTypeCheckingBlock)
      ensures comments == old(comments) + CommentsOf(nodes)
      decreases nodes
    {
      hide Named, IsTypeChecking, ImportsIn, ImportsOf, CommentsIn, CommentsOf;
      ghost var before, noted, tc := modules, comments, inTypeCheckingBlock;
      NothingYet(nodes, file, tc);
      for i := 0 to |nodes|
        invariant inTypeCheckingBlock == tc
        invariant modules == before + ImportsOf(nodes[..i], file, tc)
        invariant comments == noted + CommentsOf(nodes[..i])
      {
        ImportsOfSplit(nodes, i, file, tc);
        CommentsOfSplit(nodes, i);
        LeafImports(nodes[i], file, tc);
        var isImport := ParseImportStatements(nodes[i]);
        if isImport { continue; }
        var isComment := ParseComments(nodes[i]);
        if isComment { continue; }
        Parse(nodes[i]);
      }
      assert nodes[..|nodes|] == nodes;
    }
  }

  lemma NothingYet(nodes: seq<Node>, file: string, tc: bool)
    ensures ImportsOf(nodes[..0], file, tc) == [] && CommentsOf(nodes[..0]) == []
  {
  }

  lemma LeafImports(node: Node, file: string, tc: bool)
    ensures !node.If? && !node.Other? ==> ImportsIn(node, file, tc) == [] && CommentsIn(node) == []
    ensures !node.Import? && !node.ImportFrom? ==> Named(node, file, tc) == []
  {
  }

  // ------------------------------------------------------- where an import is

  /** The node at the end of a path of child indices. */
  function At(node: Node, path: seq<nat>): Option<Node>
    decreases |path|
  {
    if path == [] then Some(node)
    else if (node.If? || node.Other?) && path[0] < |node.children| then At(node.children[path[0]], path[1..])
    else None
  }

  /** A type-checking `if` stands above the end of the path. */
  ghost predicate Guarded(node: Node, path: seq<nat>) {
    exists k :: 0 <= k < |path| && At(node, path[..k]).Some? && IsTypeChecking(At(node, path[..k]).value)
  }

  lemma GuardedStep(node: Node, path: seq<nat>)
    requires path != [] && At(node, path).Some?
    ensures Guarded(node, path) <==> IsTypeChecking(node) || Guarded(node.children[path[0]], path[1..])
  {
    hide IsTypeChecking;
    var child := node.children[path[0]];
    if Guarded(node, path) && !IsTypeChecking(node) {
      var k :| 0 <= k < |path| && At(node, path[..k]).Some? && IsTypeChecking(At(node, path[..k]).value);
      assert k > 0 && path[..k][1..] == path[1..][..k - 1];
      assert At(child, path[1..][..k - 1]).Some?;
    }
    if IsTypeChecking(node) { assert At(node, path[..0]) == Some(node); }
    if Guarded(child, path[1..]) {
      var k :| 0 <= k < |path[1..]| && At(child, path[1..][..k]).Some?
               && IsTypeChecking(At(child, path[1..][..k]).value);
      assert path[..k + 1][1..] == path[1..][..k];
      assert At(node, path[..k + 1]) == At(child, path[1..][..k]);
    }
  }

  /** Every recorded import stands somewhere in the tree, and is type-checking
      only exactly when a type-checking `if` is above it. */
  lemma {:induction false} RecordedStands(node: Node, file: string, tc: bool, m: Module) returns (path: seq<nat>)
    requires m in ImportsIn(node, file, tc)
    ensures path != [] && At(node, path).Some? && m in Named(At(node, path).value, file, tc || Guarded(node, path))
    decreases node, 0
  {
    hide Named, IsTypeChecking;
    var open := tc || IsTypeChecking(node);
    var i, rest := RecordedBelow(node.children, file, open, m);
    path := [i] + rest;
    assert path[1..] == rest;
    GuardedStep(node, path);
  }

  lemma {:induction false} RecordedBelow(nodes: seq<Node>, file: string, tc: bool, m: Module)
    returns (i: nat, rest: seq<nat>)
    requires m in ImportsOf(nodes, file, tc)
    ensures i < |nodes| && At(nodes[i], rest).Some?
            && m in Named(At(nodes[i], rest).value, file, tc || Guarded(nodes[i], rest))
    decreases nodes
  {
    hide Named, IsTypeChecking;
    if m in Named(nodes[0], file, tc) {
      i, rest := 0, [];
      assert !Guarded(nodes[0], []);
    } else if m in ImportsIn(nodes[0], file, tc) {
      i := 0;
      rest := RecordedStands(nodes[0], file, tc, m);
    } else {
      i, rest := RecordedBelow(nodes[1..], file, tc, m);
      i := i + 1;
    }
  }

  /** Every import statement of the tree is recorded. */
  lemma {:induction false} StandingIsRecorded(node: Node, file: string, tc: bool, path: seq<nat>, m: Module)
    requires path != [] && At(node, path).Some? && m in Named(At(node, path).value, file, tc || Guarded(node, path))
    ensures m in ImportsIn(node, file, tc)
    decreases |path|
  {
    hide Named, IsTypeChecking;
    var i, open := path[0], tc || IsTypeChecking(node);
    GuardedStep(node, path);
    if path[1..] == [] {
      assert !Guarded(node.children[i], []);
    } else {
      StandingIsRecorded(node.children[i], file, open, path[1..], m);
    }
    ListedBelow(node.children, file, open, i, m);
  }

  lemma {:induction false} ListedBelow(nodes: seq<Node>, file: string, tc: bool, i: nat, m: Module)
    requires i < |nodes| && (m in Named(nodes[i], file, tc) || m in ImportsIn(nodes[i], file, tc))
    ensures m in ImportsOf(nodes, file, tc)
    decreases i
  {
    hide Named, ImportsIn;
    if i > 0 { ListedBelow(nodes[1..], file, tc, i - 1, m); }
  }

  // ---------------------------------------------- the statement, in plain terms

  /** The statement imports that name: `import name`, unless it is relative, or
      `from pkg import part` with a part of it, unless `pkg` is a lone dot. */
  ghost predicate Imports(node: Node, name: string, from: string) {
    || (node.Import? && from == "" && name in node.names && !("." <= name))
    || (node.ImportFrom? && from == node.from && from != "."
        && exists part :: part in node.names && name == from + "." + part)
  }

  /** One of the `if` statements above the end of the path tests `TYPE_CHECKING`. */
  ghost predicate UnderTypeChecking(node: Node, path: seq<nat>) {
    exists k, children :: 0 <= k < |path|
      && (At(node, path[..k]) == Some(If(Name("TYPE_CHECKING"), children))
          || At(node, path[..k]) == Some(If(Attribute("typing", "TYPE_CHECKING"), children)))
  }

  lemma {:induction false} PlainAre(names: seq<string>, file: string, tc: bool, m: Module)
    ensures m in Plain(names, file, tc) <==>
              m.file == file && m.typeCheckingOnly == tc && m.from == "" && m.name in names && !("." <= m.name)
  {
    if names != [] {
      PlainAre(names[1..], file, tc, m);
      assert names == [names[0]] + names[1..];
    }
  }

  lemma NamedAre(node: Node, file: string, tc: bool, m: Module)
    ensures m in Named(node, file, tc) <==>
              m.file == file && m.typeCheckingOnly == tc && Imports(node, m.name, m.from)
  {
    match node {
      case Import(names) => PlainAre(names, file, tc, m);
      case ImportFrom(from, names) =>
        if Imports(node, m.name, m.from) && m.file == file && m.typeCheckingOnly == tc {
          var part :| part in names && m.name == from + "." + part;
          var i :| 0 <= i < |names| && names[i] == part;
          assert Named(node, file, tc)[i] == m;
        }
      case _ =>
    }
  }

  lemma GuardedIs(node: Node, path: seq<nat>)
    ensures Guarded(node, path) <==> UnderTypeChecking(node, path)
  {
    if Guarded(node, path) {
      var k :| 0 <= k < |path| && At(node, path[..k]).Some? && IsTypeChecking(At(node, path[..k]).value);
      var n := At(node, path[..k]).value;
      assert n == If(n.condition, n.children);
    }
  }

  /** A parsed file records exactly the imports that some statement of its tree
      makes, each as type-checking only when it stands below such an `if`. */
  lemma RecordedIff(node: Node, file: string, m: Module)
    ensures m in ImportsIn(node, file, false) <==>
              m.file == file
              && exists path :: path != [] && At(node, path).Some? && Imports(At(node, path).value, m.name, m.from)
                                && (m.typeCheckingOnly <==> UnderTypeChecking(node, path))
  {
    hide At, Imports, ImportsIn, Guarded, UnderTypeChecking, Named;
    if m in ImportsIn(node, file, false) {
      var path := RecordedStands(node, file, false, m);
      NamedAre(At(node, path).value, file, Guarded(node, path), m);
      GuardedIs(node, path);
    }
    if path :| m.file == file && path != [] && At(node, path).Some? && Imports(At(node, path).value, m.name, m.from)
               && (m.typeCheckingOnly <==> UnderTypeChecking(node, path)) {
      NamedAre(At(node, path).value, file, Guarded(node, path), m);
      GuardedIs(node, path);
      StandingIsRecorded(node, file, false, path, m);
    }
  }

  ghost predicate IsCommentAt(node: Node, path: seq<nat>, text: string) {
    At(node, path) == Some(Comment(text))
  }

  ghost predicate IsCommentBelow(nodes: seq<Node>, i: nat, rest: seq<nat>, text: string) {
    i < |nodes| && IsCommentAt(nodes[i], rest, text)
  }

  lemma CommentStep(node: Node, path: seq<nat>, text: string)
    ensures path != [] && IsCommentAt(node, path, text) <==>
              path != [] && (node.If? || node.Other?) && IsCommentBelow(node.children, path[0], path[1..], text)
  {
  }

  /** Likewise its comments. */
  lemma {:induction false} CommentsIff(node: Node, text: string)
    ensures text in CommentsIn(node) <==> exists path :: path != [] && IsCommentAt(node, path, text)
    decreases node, 0
  {
    hide CommentsOf, IsCommentAt, IsCommentBelow;
    if node.If? || node.Other? {
      CommentsBelow(node.children, text);
      if i: nat, rest :| IsCommentBelow(node.children, i, rest, text) {
        assert ([i] + rest)[1..] == rest;
        CommentStep(node, [i] + rest, text);
      }
    }
    if path :| path != [] && IsCommentAt(node, path, text) { CommentStep(node, path, text); }
  }

  lemma {:induction false} CommentsBelow(nodes: seq<Node>, text: string)
    ensures text in CommentsOf(nodes) <==> exists i: nat, rest :: IsCommentBelow(nodes, i, rest, text)
    decreases nodes
  {
    if nodes != [] {
      var (first, below) := (nodes[0], nodes[1..]);
      CommentsBelow(below, text);
      CommentsIff(first, text);
      CommentsStep(nodes, text);
      assert IsCommentAt(first, [], text) <==> first == Comment(text);
      hide CommentsIn, CommentsOf, IsCommentAt;
      if i: nat, rest :| IsCommentBelow(below, i, rest, text) { assert IsCommentBelow(nodes, i + 1, rest, text); }
      if path :| IsCommentAt(first, path, text) { assert IsCommentBelow(nodes, 0, path, text); }
      if i: nat, rest :| IsCommentBelow(nodes, i, rest, text) {
        if i > 0 { assert IsCommentBelow(below, i - 1, rest, text); }
        assert i == 0 && rest != [] ==> IsCommentAt(first, rest, text);
      }
    }
  }

  lemma CommentsStep(nodes: seq<Node>, text: string)
    requires nodes != []
    ensures text in CommentsOf(nodes) <==>
              nodes[0] == Comment(text) || text in CommentsIn(nodes[0]) || text in CommentsOf(nodes[1..])
  {
  }

  /** A tree whose from-imports name a package and undotted names in it. */
  predicate GoodNode(node: Node)
    decreases node, 0
  {
    && (node.ImportFrom? ==> node.from != "" && forall n :: n in node.names ==> '.' !in n)
    && ((node.If? || node.Other?) ==> GoodNodes(node.children))
  }

  predicate GoodNodes(nodes: seq<Node>)
    decreases nodes
  {
    nodes != [] ==> GoodNode(nodes[0]) && GoodNodes(nodes[1..])
  }

  /** A name that is either absolute and imported as a whole, or ends after the
      package it is imported from in one undotted name. */
  predicate Shaped(m: Module) {
    if m.from == "" then !StartsWith(m.name, ".") else m.from <= m.name && LastIndexOf(m.name, '.') == |m.from|
  }

  /** So recorded imports are shaped: whether one is relative, and to which package,
      can be read off its name. */
  lemma {:induction false} RelativeByName(nodes: seq<Node>, file: string, tc: bool, m: Module)
    requires GoodNodes(nodes) && m in ImportsOf(nodes, file, tc)
    ensures Shaped(m) && (StartsWith(m.from, ".") <==> StartsWith(m.name, "."))
    decreases nodes
  {
    if m in Named(nodes[0], file, tc) {
      if nodes[0].Import? {
        PlainIsAbsolute(nodes[0].names, file, tc, m);
      } else {
        FromIsShaped(nodes[0], file, tc, m);
      }
    } else if m in ImportsIn(nodes[0], file, tc) {
      RelativeByName(nodes[0].children, file, tc || IsTypeChecking(nodes[0]), m);
    } else {
      RelativeByName(nodes[1..], file, tc, m);
    }
  }

  lemma FromIsShaped(node: Node, file: string, tc: bool, m: Module)
    requires node.ImportFrom? && GoodNode(node) && m in Named(node, file, tc)
    ensures m.from != "" && Shaped(m)
  {
    var i :| 0 <= i < |node.names| && m.name == node.from + "." + node.names[i];
    assert node.names[i] in node.names;
    assert m.name[|m.from|] == '.' && forall k :: |m.from| < k < |m.name| ==>
             m.name[k] == node.names[i][k - |m.from| - 1];
  }

  lemma {:induction false} PlainIsAbsolute(names: seq<string>, file: string, tc: bool, m: Module)
    requires m in Plain(names, file, tc)
    ensures m.from == "" && !StartsWith(m.name, ".")
  {
    if m in Plain(names[1..], file, tc) { PlainIsAbsolute(names[1..], file, tc, m); }
  }
}
