/** `copytree`: every successful interleaving of the pool is a sequential
    recursive copy. */
module SyncCopytree {
  import opened Text
  import opened SyncFiles
  import opened SyncProtocol
  import opened SyncSafety
  import opened SyncResult

  /** The plain recursive copy that the pool stands for. */
  function CopyInto(d: Disk, tree: Tree, dest: Path): Disk
    decreases tree
  {
    match tree
    case Leaf(content, _) => Mkdir(d, Parent(dest))[dest := Plain(content, true)]
    case Branch(entries) => CopyEntries(Mkdir(d, dest), entries, dest)
  }

  function CopyEntries(d: Disk, entries: seq<Entry>, dest: Path): Disk
    decreases entries
  {
    if entries == [] then d
    else CopyEntries(CopyInto(d, entries[0].tree, dest + [entries[0].name]), entries[1..], dest)
  }

  function Find(entries: seq<Entry>, name: string): (r: Option<Tree>)
    ensures r.Some? ==> exists i :: 0 <= i < |entries| && entries[i] == Entry(name, r.value)
    ensures r.None? ==> forall i :: 0 <= i < |entries| ==> entries[i].name != name
  {
    if entries == [] then None
    else if entries[0].name == name then Some(entries[0].tree)
    else
      var r := Find(entries[1..], name);
      assert r.Some? ==> forall i :: 0 <= i < |entries[1..]| && entries[1..][i] == Entry(name, r.value) ==>
               entries[i + 1] == Entry(name, r.value);
      r
  }

  /** What a tree puts at a path relative to its root. */
  function ItemAt(tree: Tree, rel: Path): Option<Item>
    decreases |rel|
  {
    if rel == [] then Some(if tree.Leaf? then Plain(tree.content, true) else Folder)
    else if tree.Leaf? then None
    else match Find(tree.entries, rel[0])
      case None => None
      case Some(t) => ItemAt(t, rel[1..])
  }

  /** No directory lists a name twice. */
  ghost predicate GoodTree(tree: Tree)
    decreases tree
  {
    tree.Branch? ==> GoodEntries(tree.entries)
  }

  ghost predicate GoodEntries(entries: seq<Entry>)
    decreases entries
  {
    entries != [] ==>
      GoodTree(entries[0].tree) && Find(entries[1..], entries[0].name).None? && GoodEntries(entries[1..])
  }

  lemma {:induction false} FoundIsGood(entries: seq<Entry>, name: string)
    requires GoodEntries(entries) && Find(entries, name).Some?
    ensures GoodTree(Find(entries, name).value)
  {
    hide GoodTree;
    if entries[0].name != name { FoundIsGood(entries[1..], name); }
  }

  // ------------------------------------------------- the tasks of a tree

  /** An entry's path below `dest`. */
  function ItemBelow(entries: seq<Entry>, rel: Path): Option<Item> {
    if rel == [] then None
    else match Find(entries, rel[0]) case None => None case Some(t) => ItemAt(t, rel[1..])
  }

  lemma BranchItem(tree: Tree, rel: Path)
    requires tree.Branch? && rel != []
    ensures ItemAt(tree, rel) == ItemBelow(tree.entries, rel)
  {
  }

  /** Each task of a tree makes what the tree holds at its path. */
  lemma {:induction false} TaskMakesItem(tree: Tree, dest: Path, op: Op)
    requires GoodTree(tree) && op in TreeClosure(tree, dest)
    ensures !op.RemovePath? && dest <= op.dest && ItemAt(tree, op.dest[|dest|..]) == Intent(op)
    decreases tree
  {
    if op != TaskFor(tree, dest) {
      EntryMakesItem(tree.entries, dest, op);
      BranchItem(tree, op.dest[|dest|..]);
    }
  }

  lemma {:induction false} EntryMakesItem(entries: seq<Entry>, dest: Path, op: Op)
    requires GoodEntries(entries) && op in EntryClosure(entries, dest)
    ensures !op.RemovePath? && dest < op.dest && ItemBelow(entries, op.dest[|dest|..]) == Intent(op)
    decreases entries
  {
    var name := entries[0].name;
    hide TreeClosure, ItemAt, GoodTree, Intent;
    if op in TreeClosure(entries[0].tree, dest + [name]) {
      TaskMakesItem(entries[0].tree, dest + [name], op);
      var rel := op.dest[|dest|..];
      assert rel[0] == (dest + [name])[|dest|] == name && rel[1..] == op.dest[|dest + [name]|..];
    } else {
      EntryMakesItem(entries[1..], dest, op);
    }
  }

  lemma ItemStep(tree: Tree, rel: Path) returns (i: nat)
    requires ItemAt(tree, rel).Some? && rel != []
    ensures tree.Branch? && i < |tree.entries| && tree.entries[i].name == rel[0]
    ensures ItemAt(tree.entries[i].tree, rel[1..]).Some?
  {
    var t := Find(tree.entries, rel[0]).value;
    i :| 0 <= i < |tree.entries| && tree.entries[i] == Entry(rel[0], t);
  }

  lemma RootTask(tree: Tree, dest: Path)
    ensures TaskFor(tree, dest) in TreeClosure(tree, dest) && TaskFor(tree, dest).dest == dest
  {
  }

  /** Each item of a tree has its task. */
  lemma {:induction false} ItemHasTask(tree: Tree, dest: Path, rel: Path)
    requires ItemAt(tree, rel).Some?
    ensures exists op :: op in TreeClosure(tree, dest) && op.dest == dest + rel
    decreases |rel|
  {
    hide TreeClosure, ItemAt, TaskFor;
    if rel == [] {
      RootTask(tree, dest);
      assert dest + rel == dest;
    } else {
      var i := ItemStep(tree, rel);
      var below := dest + [tree.entries[i].name];
      ItemHasTask(tree.entries[i].tree, below, rel[1..]);
      var op :| op in TreeClosure(tree.entries[i].tree, below) && op.dest == below + rel[1..];
      EntryTaskListed(tree.entries, dest, i, op);
      BranchTask(tree, dest, op);
      assert below + rel[1..] == dest + rel;
    }
  }

  lemma BranchTask(tree: Tree, dest: Path, op: Op)
    requires tree.Branch? && op in EntryClosure(tree.entries, dest)
    ensures op in TreeClosure(tree, dest)
  {
  }

  lemma {:induction false} EntryTaskListed(entries: seq<Entry>, dest: Path, i: nat, op: Op)
    requires i < |entries| && op in TreeClosure(entries[i].tree, dest + [entries[i].name])
    ensures op in EntryClosure(entries, dest)
  {
    hide TreeClosure;
    if i > 0 { EntryTaskListed(entries[1..], dest, i - 1, op); }
  }

  /** Above every item of a tree there is a folder of the tree. */
  lemma {:induction false} FoldersAbove(tree: Tree, rel: Path, k: nat)
    requires ItemAt(tree, rel).Some? && k < |rel|
    ensures ItemAt(tree, rel[..k]) == Some(Folder)
    decreases |rel|
  {
    if k > 0 {
      var t := Find(tree.entries, rel[0]).value;
      FoldersAbove(t, rel[1..], k - 1);
      assert rel[..k][0] == rel[0] && rel[..k][1..] == rel[1..][..k - 1];
    }
  }

  // ----------------------------------------------------- the sequential copy

  /** What the sequential copy leaves at a path. */
  ghost function CopiedAt(d: Disk, tree: Tree, dest: Path, q: Path): Option<Item> {
    if q < dest then Some(Folder)
    else if dest <= q && ItemAt(tree, q[|dest|..]).Some? then ItemAt(tree, q[|dest|..])
    else Look(d, q)
  }

  lemma {:induction false} CopyIntoAt(d: Disk, tree: Tree, dest: Path, q: Path)
    requires GoodTree(tree) && dest != []
    ensures Look(CopyInto(d, tree, dest), q) == CopiedAt(d, tree, dest, q)
    decreases tree
  {
    if tree.Leaf? {
      PrefixOfParent(q, dest);
      hide Mkdir, Find;
    } else {
      hide Mkdir, Find, CopyInto, CopyEntries;
      CopyEntriesAt(Mkdir(d, dest), tree.entries, dest, q);
      assert CopyInto(d, tree, dest) == CopyEntries(Mkdir(d, dest), tree.entries, dest)
             by { CopyBranch(d, tree, dest); }
      if dest < q { BranchItem(tree, q[|dest|..]); }
    }
  }

  lemma CopyBranch(d: Disk, tree: Tree, dest: Path)
    requires tree.Branch?
    ensures CopyInto(d, tree, dest) == CopyEntries(Mkdir(d, dest), tree.entries, dest)
  {
  }

  lemma {:induction false} CopyEntriesAt(d: Disk, entries: seq<Entry>, dest: Path, q: Path)
    requires GoodEntries(entries) && forall p :: p <= dest ==> Look(d, p) == Some(Folder)
    ensures Look(CopyEntries(d, entries, dest), q) ==
            if dest < q && ItemBelow(entries, q[|dest|..]).Some? then ItemBelow(entries, q[|dest|..]) else Look(d, q)
    decreases entries
  {
    if entries != [] {
      var e := entries[0];
      var below := dest + [e.name];
      var d1 := CopyInto(d, e.tree, below);
      hide CopyInto, ItemAt, GoodTree;
      forall p | p <= dest ensures Look(d1, p) == Some(Folder) {
        CopyIntoAt(d, e.tree, below, p);
        assert p < below;
      }
      CopyEntriesAt(d1, entries[1..], dest, q);
      CopyIntoAt(d, e.tree, below, q);
      if dest < q {
        assert below <= q <==> q[|dest|] == e.name;
        if below <= q { assert q[|below|..] == q[|dest|..][1..]; }
        assert !(q < below);
      }
    }
  }

  // ------------------------------------------------------------- the theorem

  /** Nothing at or below `dest`, and folders above it. */
  ghost predicate Clear(d: Disk, dest: Path) {
    dest != [] && forall q :: q in d ==> !(dest <= q) && (q < dest ==> d[q] == Folder)
  }

  lemma BranchClosure(entries: seq<Entry>, dest: Path)
    ensures ClosureAll([CopyDir(entries, dest)]) == TreeClosure(Branch(entries), dest)
  {
    assert [CopyDir(entries, dest)][1..] == [];
  }

  lemma TreeCompatible(before: Disk, tree: Tree, dest: Path)
    requires GoodTree(tree) && Clear(before, dest)
    ensures Compatible(before, TreeClosure(tree, dest))
  {
    hide TreeClosure, ItemAt, GoodTree;
    var ops := TreeClosure(tree, dest);
    forall a, b | a in ops && b in ops
      ensures a.dest == b.dest ==> Intent(a) == Intent(b)
      ensures !b.RemovePath? && a.dest < b.dest ==> a.CopyDir?
      ensures !a.CopyDir? ==> a.dest != [] && Look(before, a.dest) != Some(Folder)
    {
      TaskMakesItem(tree, dest, a);
      TaskMakesItem(tree, dest, b);
      if a.dest < b.dest {
        var rel := b.dest[|dest|..];
        assert a.dest[|dest|..] == rel[..|a.dest| - |dest|];
        FoldersAbove(tree, rel, |a.dest| - |dest|);
      }
    }
  }

  lemma TreeFinal(before: Disk, tree: Tree, dest: Path, q: Path)
    requires GoodTree(tree) && Clear(before, dest)
    ensures FinalAt(before, TreeClosure(tree, dest), q) == CopiedAt(before, tree, dest, q)
  {
    hide TreeClosure, ItemAt, GoodTree;
    var ops := TreeClosure(tree, dest);
    if dest <= q && ItemAt(tree, q[|dest|..]).Some? {
      ItemHasTask(tree, dest, q[|dest|..]);
      assert q == dest + q[|dest|..];
    }
    if IsTarget(ops, q) {
      var op :| op in ops && op.dest == q && FinalAt(before, ops, q) == Intent(op);
      TaskMakesItem(tree, dest, op);
    } else {
      AboveTree(tree, dest, q);
    }
  }

  /** A path between the root and an item of the tree is an item of the tree. */
  lemma BetweenIsTarget(tree: Tree, dest: Path, q: Path, op: Op)
    requires GoodTree(tree) && op in TreeClosure(tree, dest) && dest <= q < op.dest
    ensures IsTarget(TreeClosure(tree, dest), q)
  {
    hide TreeClosure, ItemAt, GoodTree;
    TaskMakesItem(tree, dest, op);
    var rel := op.dest[|dest|..];
    FoldersAbove(tree, rel, |q| - |dest|);
    ItemHasTask(tree, dest, rel[..|q| - |dest|]);
    assert q == dest + rel[..|q| - |dest|];
  }

  lemma AboveTree(tree: Tree, dest: Path, q: Path)
    requires GoodTree(tree) && !IsTarget(TreeClosure(tree, dest), q)
    ensures IsAbove(TreeClosure(tree, dest), q) <==> q < dest
  {
    var ops := TreeClosure(tree, dest);
    var root := TaskFor(tree, dest);
    assert root in ops && root.dest == dest && !root.RemovePath?;
    hide TreeClosure, GoodTree, IsTarget;
    if op :| op in ops && q < op.dest {
      TaskMakesItem(tree, dest, op);
      assert q == op.dest[..|q|] && dest == op.dest[..|dest|];
      assert |dest| <= |q| ==> dest <= q;
      assert |q| < |dest| ==> q < dest;
      if dest <= q { BetweenIsTarget(tree, dest, q, op); }
    }
  }

  /** However the pool's threads interleave, a `copytree` in which no task fails
      leaves exactly what a sequential recursive copy leaves. */
  lemma CopytreeIsSequential(entries: seq<Entry>, dest: Path, workers: nat, before: Disk, events: seq<Event>,
                             end: State)
    requires GoodTree(Branch(entries)) && Clear(before, dest)
    requires After(Start([CopyDir(entries, dest)], workers, before), events) == Some(end) && Passed(end)
             && NoFailure(end)
    ensures end.disk == CopyInto(before, Branch(entries), dest)
  {
    var copied := CopyInto(before, Branch(entries), dest);
    hide TreeClosure, After, Start, Passed, NoFailure, Compatible, FinalAt, CopiedAt, CopyInto, GoodTree, ClosureAll;
    BranchClosure(entries, dest);
    TreeCompatible(before, Branch(entries), dest);
    EveryInterleavingAgrees([CopyDir(entries, dest)], workers, before, events, end);
    forall q ensures Look(end.disk, q) == Look(copied, q) {
      TreeFinal(before, Branch(entries), dest, q);
      CopyIntoAt(before, Branch(entries), dest, q);
    }
    SameDisk(end.disk, copied);
  }

  lemma SameDisk(d: Disk, d': Disk)
    requires forall q :: Look(d, q) == Look(d', q)
    ensures d == d'
  {
    assert forall q :: q in d <==> Look(d, q).Some?;
    assert forall q :: q in d' <==> Look(d', q).Some?;
    assert d.Keys == d'.Keys;
    assert forall q :: q in d ==> Some(d[q]) == Look(d, q) == Look(d', q);
  }
}
