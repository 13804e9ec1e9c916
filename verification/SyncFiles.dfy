/** Disks as path maps, source trees, and the file operations of the pool tasks. */
module SyncFiles {
  import opened Text

  type Path = seq<string>

  datatype Item = Folder | Plain(content: string, writable: bool)

  type Disk = map<Path, Item>

  /** A source directory as `os.scandir` lists it, links resolved. */
  datatype Tree = Leaf(content: string, writable: bool) | Branch(entries: seq<Entry>)
  datatype Entry = Entry(name: string, tree: Tree)

  function Look(d: Disk, p: Path): Option<Item> {
    if p in d then Some(d[p]) else None
  }

  function Prefixes(p: Path): (r: set<Path>)
    ensures forall q :: q in r <==> q <= p
  {
    var r := set k | 0 <= k <= |p| :: p[..k];
    assert forall q | q <= p :: q in r by {
      forall q | q <= p ensures q in r { assert q == p[..|q|]; }
    }
    r
  }

  predicate CanMkdir(d: Disk, p: Path) {
    forall q :: q in Prefixes(p) && q in d ==> d[q] == Folder
  }

  /** `mkdir(parents=True, exist_ok=True)`. */
  function Mkdir(d: Disk, p: Path): (r: Disk)
    ensures forall q :: Look(r, q) == if q <= p then Some(Folder) else Look(d, q)
  {
    d + map q | q in Prefixes(p) :: Folder
  }

  function Parent(p: Path): Path {
    if p == [] then [] else p[..|p| - 1]
  }

  datatype Op =
    | RemovePath(dest: Path)
    | CopyFile(content: string, writable: bool, dest: Path)
    | CopyDir(entries: seq<Entry>, dest: Path)

  /** Where `shutil.copy2` writes: a copy onto a directory lands in it. */
  function Landing(d: Disk, p: Path): Path {
    if Look(d, p) == Some(Folder) && p != [] then p + [p[|p| - 1]] else p
  }

  /** A file cannot take the place of a directory. */
  predicate CanCopy(d: Disk, op: Op)
    requires op.CopyFile?
  {
    Look(d, Landing(d, op.dest)) != Some(Folder)
  }

  /** `shutil.copy2`, and the `chmod` that makes the destination writable. */
  function Copied(d: Disk, op: Op): Disk
    requires op.CopyFile?
  {
    var target := Landing(d, op.dest);
    d[target := Plain(op.content, op.writable || target == op.dest)]
  }

  /** `rmtree` of a directory, `unlink(missing_ok=True)` of anything else. */
  function Removed(d: Disk, p: Path): Disk {
    if Look(d, p) == Some(Folder) then map q | q in d && !(p <= q) :: d[q] else d - {p}
  }

  /** What a failed task can leave: folders made above its path, and nothing but
      fewer folders and other files at its path and below. */
  predicate CanLeave(before: Disk, left: Disk, op: Op) {
    forall q :: q in before.Keys + left.Keys ==>
      && (Look(left, q) == Some(Folder) ==>
           Look(before, q) == Some(Folder) || (!op.RemovePath? && (q < op.dest || (op.CopyDir? && q == op.dest))))
      && (op.dest <= q || Look(left, q) == Look(before, q)
          || (!op.RemovePath? && q < op.dest && Look(before, q) == None && Look(left, q) == Some(Folder)))
  }

  lemma CanLeaveAlone(d: Disk, op: Op)
    ensures CanLeave(d, d, op)
  {
  }

  /** `shutil.rmtree` of a directory with everything in it. */
  function Wiped(d: Disk, dest: Path): (r: Disk)
    ensures forall q :: Look(r, q) == if dest <= q then None else Look(d, q)
  {
    map q | q in d && !(dest <= q) :: d[q]
  }

  function TaskFor(tree: Tree, dest: Path): Op {
    match tree
    case Leaf(content, writable) => CopyFile(content, writable, dest)
    case Branch(entries) => CopyDir(entries, dest)
  }

  /** The tasks a directory copy submits, in scan order. */
  function Children(op: Op): seq<Op> {
    if op.CopyDir? then
      seq(|op.entries|, i requires 0 <= i < |op.entries| => TaskFor(op.entries[i].tree, op.dest + [op.entries[i].name]))
    else []
  }

  /** A task with everything it goes on to submit. */
  function Closure(op: Op): (c: multiset<Op>)
    ensures op in c
    decreases op, 1
  {
    match op
    case CopyDir(entries, dest) => multiset{op} + EntryClosure(entries, dest)
    case _ => multiset{op}
  }

  function EntryClosure(entries: seq<Entry>, dest: Path): multiset<Op>
    decreases entries
  {
    if entries == [] then multiset{}
    else
      TreeClosure(entries[0].tree, dest + [entries[0].name]) + EntryClosure(entries[1..], dest)
  }

  function TreeClosure(tree: Tree, dest: Path): multiset<Op>
    decreases tree
  {
    multiset{TaskFor(tree, dest)} + if tree.Branch? then EntryClosure(tree.entries, dest) else multiset{}
  }

  function ClosureAll(ops: seq<Op>): multiset<Op> {
    if ops == [] then multiset{} else Closure(ops[0]) + ClosureAll(ops[1..])
  }

  lemma {:induction false} EntriesAreChildren(entries: seq<Entry>, dest: Path)
    ensures EntryClosure(entries, dest) == ClosureAll(Children(CopyDir(entries, dest)))
  {
    var ops := Children(CopyDir(entries, dest));
    if entries != [] {
      EntriesAreChildren(entries[1..], dest);
      hide TreeClosure;
      ClosureOfTree(entries[0].tree, dest + [entries[0].name]);
      hide Closure, TaskFor;
      assert ops[1..] == Children(CopyDir(entries[1..], dest));
    }
  }

  lemma ClosureOfTree(tree: Tree, dest: Path)
    ensures Closure(TaskFor(tree, dest)) == TreeClosure(tree, dest)
  {
  }

  lemma ClosureStep(op: Op)
    ensures Closure(op) == multiset{op} + ClosureAll(Children(op))
  {
    if op.CopyDir? { EntriesAreChildren(op.entries, op.dest); }
  }

  lemma ClosureFrom(ops: seq<Op>, k: nat)
    requires k < |ops|
    ensures ClosureAll(ops[k..]) == Closure(ops[k]) + ClosureAll(ops[k + 1..])
  {
    assert ops[k..][0] == ops[k] && ops[k..][1..] == ops[k + 1..];
  }

  lemma {:induction false} MemberClosed(ops: seq<Op>, op: Op)
    requires op in ops
    ensures op in ClosureAll(ops)
  {
    if op != ops[0] { MemberClosed(ops[1..], op); }
  }
}
