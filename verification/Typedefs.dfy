/** The Markdown renderer's typedef fences: a sort and a stack must nest them. */
module Typedefs {
  import opened Text
  import opened Sorting

  /** A documented object. Any name may end like a typedef placeholder's, but only
      functions are rendered with a fence for it. */
  datatype Object =
    | Function(name: string, deprecated: bool)
    | Provider(name: string, fields: nat)
    | Aspect(name: string, attributes: nat)
    | Extension(name: string, tags: seq<nat>) // the attributes of each tag class
    | RepositoryRule(name: string, attributes: nat)
    | Rule(name: string, attributes: nat)

  /** Directive fences as written: their length in colons, and what they start. */
  datatype Token = Open(length: nat, name: string) | Close(length: nat)

  const TYPEDEF := ".TYPEDEF"

  predicate IsTypedef(o: Object) {
    EndsWith(o.name, TYPEDEF)
  }

  /** `name.removesuffix(".TYPEDEF")`. */
  function Stem(o: Object): string {
    if EndsWith(o.name, TYPEDEF) then o.name[..|o.name| - |TYPEDEF|] else o.name
  }

  function Group(o: Object): string {
    Stem(o) + "."
  }

  /** The sort key: the name without case, typedefs before their content. */
  function Key(o: Object): string {
    Lower(Stem(o))
  }

  function Fence(depth: nat): nat
    requires depth <= 10
  {
    13 - depth
  }

  // ------------------------------------------------------------- the renderer

  datatype State = State(stack: seq<string>, out: seq<Token>)

  /** The enclosing typedefs that also enclose `group`, from the outermost. */
  function Popped(stack: seq<string>, group: string): seq<string> {
    if stack == [] || stack[|stack| - 1] <= group then stack else Popped(stack[..|stack| - 1], group)
  }

  /** The stack can fall from `n` to `k`: the assertion on each end fence holds. */
  predicate Closable(n: nat, k: nat) {
    n == k || n <= 11
  }

  /** The end fences written while the stack falls from `n` to `k`. */
  function Closes(n: nat, k: nat): seq<Token>
    requires k <= n && Closable(n, k)
  {
    if n == k then [] else [Close(Fence(n - 1))] + Closes(n - 1, k)
  }

  function Block(length: nat, name: string, inner: seq<Token>): seq<Token> {
    [Open(length, name)] + inner + [Close(length)]
  }

  function Blocks(count: nat, length: nat, name: string): seq<Token> {
    if count == 0 then [] else Blocks(count - 1, length, name) + Block(length, name, [])
  }

  function Tags(tags: seq<nat>): seq<Token> {
    if tags == [] then []
    else Tags(tags[..|tags| - 1]) + Block(5, "tag-class", Blocks(tags[|tags| - 1], 3, "attr-info"))
  }

  /** The fences inside an object's own. */
  function Inner(o: Object): seq<Token> {
    match o
    case Function(_, deprecated) => if deprecated then Block(5, "deprecated", []) else []
    case Provider(_, fields) => Block(5, "<init>", []) + Blocks(fields, 5, "provider-field")
    case Aspect(_, attributes) => Blocks(attributes, 3, "attr-info")
    case Extension(_, tags) => Tags(tags)
    case RepositoryRule(_, attributes) => Blocks(attributes, 3, "attr-info")
    case Rule(_, attributes) => Blocks(attributes, 3, "attr-info")
  }

  /** Only functions have a fence for their depth; the others' is fixed. */
  function Length(o: Object, depth: nat): nat
    requires o.Function? ==> depth <= 10
  {
    if o.Function? then Fence(depth) else if o.Rule? then 4 else 6
  }

  /** What the object's own renderer writes below `depth` typedefs. */
  function Written(o: Object, depth: nat): seq<Token>
    requires o.Function? ==> depth <= 10
  {
    if o.Function? && IsTypedef(o) then [Open(Fence(depth), Stem(o))] else Block(Length(o, depth), o.name, Inner(o))
  }

  lemma {:induction false} PoppedIsPrefix(stack: seq<string>, group: string)
    ensures Popped(stack, group) <= stack
  {
    if stack != [] && !(stack[|stack| - 1] <= group) { PoppedIsPrefix(stack[..|stack| - 1], group); }
  }

  /** One object; None is a failed assertion on a fence length. */
  function Process(s: State, o: Object): Option<State> {
    PoppedIsPrefix(s.stack, Group(o));
    var stack := Popped(s.stack, Group(o));
    if !Closable(|s.stack|, |stack|) || (o.Function? && |stack| > 10) then None
    else
      var out := s.out + Closes(|s.stack|, |stack|) + Written(o, |stack|);
      Some(State(if IsTypedef(o) then stack + [Group(o)] else stack, out))
  }

  function ProcessAll(objects: seq<Object>): Option<State> {
    if objects == [] then Some(State([], []))
    else match ProcessAll(objects[..|objects| - 1])
      case None => None
      case Some(s) => Process(s, objects[|objects| - 1])
  }

  /** `_render_module` on the sorted objects. */
  function Render(objects: seq<Object>): Option<seq<Token>> {
    match ProcessAll(objects)
    case None => None
    case Some(s) => if Closable(|s.stack|, 0) then Some(s.out + Closes(|s.stack|, 0)) else None
  }

  class MySTRenderer {
    var typedefStack: seq<string>
    var outStream: seq<Token>

    constructor ()
      ensures typedefStack == [] && outStream == []
    {
      typedefStack, outStream := [], [];
    }

    /** `_get_colons`; its assertion is the precondition. */
    method GetColons() returns (length: nat)
      requires |typedefStack| <= 10
      ensures length == Fence(|typedefStack|) && length >= 3 && length + |typedefStack| == 13
    {
      var indent := 10 - |typedefStack|;
      length := 3 + indent;
    }

    method RenderTypedefEnd()
      requires |typedefStack| <= 10
      modifies this`outStream
      ensures outStream == old(outStream) + [Close(Fence(|typedefStack|))]
    {
      var colons := GetColons();
      outStream := outStream + [Close(colons)];
    }

    /** `_process_object`; false is an assertion failing. */
    method ProcessObject(o: Object) returns (ok: bool)
      modifies this
      ensures Process(State(old(typedefStack), old(outStream)), o) == if ok then Some(State(typedefStack, outStream))
              else None
    {
      var group := Group(o);
      ghost var (n, target) := (|typedefStack|, Popped(typedefStack, group));
      PoppedIsPrefix(typedefStack, group);
      hide Group, Closes, Written;
      while typedefStack != [] && !(typedefStack[|typedefStack| - 1] <= group)
        invariant Popped(typedefStack, group) == target && |target| <= |typedefStack| <= n
        invariant |typedefStack| == n || n <= 11
        invariant Closable(n, |target|) ==>
                    outStream + Closes(|typedefStack|, |target|) == old(outStream) + Closes(n, |target|)
        decreases |typedefStack|
      {
        PoppedIsPrefix(typedefStack[..|typedefStack| - 1], group);
        if |typedefStack| > 11 { return false; }
        ClosesStep(outStream, |typedefStack|, |target|);
        typedefStack := typedefStack[..|typedefStack| - 1];
        RenderTypedefEnd();
      }
      ClosesNone(|target|);
      assert outStream + [] == outStream;
      if o.Function? && |typedefStack| > 10 { return false; }
      RenderObject(o);
      if IsTypedef(o) { typedefStack := typedefStack + [group]; }
      ok := true;
    }

    method RenderBlocks(count: nat, length: nat, name: string)
      modifies this`outStream
      ensures outStream == old(outStream) + Blocks(count, length, name)
    {
      for i := 0 to count
        invariant outStream == old(outStream) + Blocks(i, length, name)
      {
        outStream := outStream + [Open(length, name)];
        outStream := outStream + [Close(length)];
      }
    }

    method RenderModuleExtension(tags: seq<nat>)
      modifies this`outStream
      ensures outStream == old(outStream) + Tags(tags)
    {
      for i := 0 to |tags|
        invariant outStream == old(outStream) + Tags(tags[..i])
      {
        assert tags[..i + 1][..i] == tags[..i];
        outStream := outStream + [Open(5, "tag-class")];
        RenderBlocks(tags[i], 3, "attr-info");
        outStream := outStream + [Close(5)];
      }
      assert tags[..|tags|] == tags;
    }

    /** What is inside the object's own fence. */
    method RenderInner(o: Object)
      modifies this`outStream
      ensures outStream == old(outStream) + Inner(o)
    {
      match o {
        case Function(_, deprecated) =>
          if deprecated { outStream := outStream + [Open(5, "deprecated")] + [Close(5)]; }
        case Provider(_, fields) =>
          outStream := outStream + [Open(5, "<init>")] + [Close(5)];
          RenderBlocks(fields, 5, "provider-field");
        case Aspect(_, attributes) => RenderBlocks(attributes, 3, "attr-info");
        case Extension(_, tags) => RenderModuleExtension(tags);
        case RepositoryRule(_, attributes) => RenderBlocks(attributes, 3, "attr-info");
        case Rule(_, attributes) => RenderBlocks(attributes, 3, "attr-info");
      }
    }

    /** The object's own renderer. */
    method RenderObject(o: Object)
      requires o.Function? ==> |typedefStack| <= 10
      modifies this`outStream
      ensures outStream == old(outStream) + Written(o, |typedefStack|)
    {
      hide Inner;
      var colons := if o.Rule? then 4 else 6;
      if o.Function? {
        colons := GetColons();
        if IsTypedef(o) {
          outStream := outStream + [Open(colons, Stem(o))];
          return;
        }
      }
      outStream := outStream + [Open(colons, o.name)];
      RenderInner(o);
      outStream := outStream + [Close(colons)];
    }

    method RenderModule(objects: seq<Object>) returns (ok: bool)
      requires typedefStack == [] && outStream == []
      modifies this
      ensures Render(StableSorted(objects, Key)) == if ok then Some(outStream) else None
    {
      hide Key, Process, StableSorted, Closes;
      var sorted := StableSorted(objects, Key);
      for i := 0 to |sorted|
        invariant ProcessAll(sorted[..i]) == Some(State(typedefStack, outStream))
      {
        assert sorted[..i + 1][..i] == sorted[..i];
        ok := ProcessObject(sorted[i]);
        if !ok {
          ProcessStuck(sorted, i + 1);
          return;
        }
      }
      assert sorted[..|sorted|] == sorted;
      ghost var before := outStream;
      ghost var n := |typedefStack|;
      while typedefStack != []
        invariant |typedefStack| <= n && (|typedefStack| == n || n <= 11)
        invariant Closable(n, 0) ==> outStream + Closes(|typedefStack|, 0) == before + Closes(n, 0)
        decreases |typedefStack|
      {
        if |typedefStack| > 11 { return false; }
        ClosesStep(outStream, |typedefStack|, 0);
        typedefStack := typedefStack[..|typedefStack| - 1];
        RenderTypedefEnd();
      }
      ClosesNone(0);
      assert outStream + [] == outStream;
      ok := true;
    }
  }

  lemma ClosesStep(out: seq<Token>, n: nat, k: nat)
    requires k < n <= 11
    ensures out + Closes(n, k) == out + [Close(Fence(n - 1))] + Closes(n - 1, k)
  {
  }

  lemma ClosesNone(n: nat)
    ensures Closes(n, n) == []
  {
  }

  lemma {:induction false} ProcessStuck(objects: seq<Object>, k: nat)
    requires k <= |objects| && ProcessAll(objects[..k]) == None
    ensures ProcessAll(objects) == None
    decreases |objects|
  {
    hide Process;
    if k == |objects| {
      assert objects[..k] == objects;
    } else {
      assert objects[..|objects| - 1][..k] == objects[..k];
      ProcessStuck(objects[..|objects| - 1], k);
    }
  }

  // ------------------------------------------------------------- well nested

  datatype Fenced = Fenced(length: nat, name: string)

  /** The length that everything inside the open fences must be below. */
  function Limit(open: seq<Fenced>): nat {
    if open == [] then 14 else open[|open| - 1].length
  }

  /** Reading the fences back: a start must be strictly shorter than the fence around
      it, whose end it would otherwise be, and an end as long as the start it closes. */
  function Read(tokens: seq<Token>): Option<seq<Fenced>> {
    if tokens == [] then Some([])
    else match Read(tokens[..|tokens| - 1])
      case None => None
      case Some(open) => Next(open, tokens[|tokens| - 1])
  }

  function Next(open: seq<Fenced>, t: Token): Option<seq<Fenced>> {
    match t
    case Open(n, name) => if n < Limit(open) then Some(open + [Fenced(n, name)]) else None
    case Close(n) => if open != [] && n == Limit(open) then Some(open[..|open| - 1]) else None
  }

  lemma ReadStep(tokens: seq<Token>, t: Token)
    ensures Read(tokens + [t]) == match Read(tokens) case None => None case Some(open) => Next(open, t)
  {
    assert (tokens + [t])[..|tokens + [t]| - 1] == tokens;
  }

  /** What cannot be read cannot be read with more after it. */
  lemma {:induction false} StuckStays(a: seq<Token>, b: seq<Token>)
    requires Read(a).None?
    ensures Read(a + b).None?
  {
    if b == [] {
      assert a + b == a;
    } else {
      var front := b[..|b| - 1];
      StuckStays(a, front);
      ReadStep(a + front, b[|b| - 1]);
      assert a + b == a + front + [b[|b| - 1]];
    }
  }

  /** A text that can be put below any fence longer than `n`. */
  ghost predicate ReadsBelow(tokens: seq<Token>, n: nat) {
    forall out :: Read(out).Some? && n <= Limit(Read(out).value) ==> Read(out + tokens) == Read(out)
  }

  lemma EmptyReads(n: nat)
    ensures ReadsBelow([], n)
  {
    forall out | Read(out).Some? ensures Read(out + []) == Read(out) { assert out + [] == out; }
  }

  lemma JoinReads(a: seq<Token>, b: seq<Token>, n: nat)
    requires ReadsBelow(a, n) && ReadsBelow(b, n)
    ensures ReadsBelow(a + b, n)
  {
    hide Read;
    forall out | Read(out).Some? && n <= Limit(Read(out).value) ensures Read(out + (a + b)) == Read(out) {
      assert out + (a + b) == out + a + b;
    }
  }

  lemma BlockAt(out: seq<Token>, length: nat, name: string, inner: seq<Token>)
    requires Read(out).Some? && ReadsBelow(inner, length)
    ensures Read(out + Block(length, name, inner)) == if length < Limit(Read(out).value) then Read(out) else None
  {
    var first := out + [Open(length, name)];
    BlockText(out, length, name, inner);
    ReadStep(out, Open(length, name));
    ReadStep(first + inner, Close(length));
    hide Read, Block, ReadsBelow;
    if length < Limit(Read(out).value) {
      InnerReads(first, inner, length);
      var open := Read(out).value;
      assert (open + [Fenced(length, name)])[..|open|] == open;
    } else {
      StuckStays(first, inner);
    }
  }

  lemma BlockText(out: seq<Token>, length: nat, name: string, inner: seq<Token>)
    ensures out + Block(length, name, inner) == out + [Open(length, name)] + inner + [Close(length)]
  {
  }

  lemma InnerReads(out: seq<Token>, tokens: seq<Token>, n: nat)
    requires ReadsBelow(tokens, n) && Read(out).Some? && n <= Limit(Read(out).value)
    ensures Read(out + tokens) == Read(out)
  {
    hide Read;
  }

  lemma BlockReads(length: nat, name: string, inner: seq<Token>, n: nat)
    requires ReadsBelow(inner, length) && length < n
    ensures ReadsBelow(Block(length, name, inner), n)
  {
    hide Read, Block;
    forall out | Read(out).Some? && n <= Limit(Read(out).value)
      ensures Read(out + Block(length, name, inner)) == Read(out) {
      BlockAt(out, length, name, inner);
    }
  }

  lemma {:induction false} BlocksRead(count: nat, length: nat, name: string, n: nat)
    requires length < n
    ensures ReadsBelow(Blocks(count, length, name), n)
  {
    hide ReadsBelow, Block;
    EmptyReads(n);
    if count > 0 {
      BlocksRead(count - 1, length, name, n);
      EmptyReads(length);
      BlockReads(length, name, [], n);
      JoinReads(Blocks(count - 1, length, name), Block(length, name, []), n);
    }
  }

  lemma {:induction false} TagsRead(tags: seq<nat>)
    ensures ReadsBelow(Tags(tags), 6)
  {
    hide ReadsBelow, Block, Blocks;
    EmptyReads(6);
    if tags != [] {
      var (front, last) := (tags[..|tags| - 1], tags[|tags| - 1]);
      TagsRead(front);
      BlocksRead(last, 3, "attr-info", 5);
      BlockReads(5, "tag-class", Blocks(last, 3, "attr-info"), 6);
      JoinReads(Tags(front), Block(5, "tag-class", Blocks(last, 3, "attr-info")), 6);
    }
  }

  /** What is inside a fixed fence is shorter than it. */
  lemma FixedInner(o: Object)
    requires !o.Function?
    ensures ReadsBelow(Inner(o), Length(o, 0))
  {
    hide ReadsBelow, Block, Blocks, Tags;
    match o {
      case Provider(_, fields) =>
        EmptyReads(5);
        BlockReads(5, "<init>", [], 6);
        BlocksRead(fields, 5, "provider-field", 6);
        JoinReads(Block(5, "<init>", []), Blocks(fields, 5, "provider-field"), 6);
      case Aspect(_, attributes) => BlocksRead(attributes, 3, "attr-info", 6);
      case Extension(_, tags) => TagsRead(tags);
      case RepositoryRule(_, attributes) => BlocksRead(attributes, 3, "attr-info", 6);
      case Rule(_, attributes) => BlocksRead(attributes, 3, "attr-info", 4);
    }
  }

  /** The fences open after some objects: one per stacked typedef. */
  ghost predicate Matches(open: seq<Fenced>, stack: seq<string>) {
    && |open| == |stack| <= 11
    && forall i :: 0 <= i < |stack| ==> open[i].length == 13 - i && open[i].name + "." == stack[i]
  }

  lemma {:induction false} ReadCloses(tokens: seq<Token>, stack: seq<string>, k: nat)
    requires k <= |stack| <= 11 && Read(tokens).Some? && Matches(Read(tokens).value, stack)
    ensures Read(tokens + Closes(|stack|, k)).Some? && Matches(Read(tokens + Closes(|stack|, k)).value, stack[..k])
    decreases |stack| - k
  {
    hide Read;
    if k == |stack| {
      assert tokens + [] == tokens && stack[..k] == stack;
    } else {
      var n := |stack|;
      ReadStep(tokens, Close(Fence(n - 1)));
      assert tokens + Closes(n, k) == tokens + [Close(Fence(n - 1))] + Closes(n - 1, k);
      ReadCloses(tokens + [Close(Fence(n - 1))], stack[..n - 1], k);
      assert stack[..n - 1][..k] == stack[..k];
    }
  }

  lemma MatchesLimit(open: seq<Fenced>, stack: seq<string>)
    requires Matches(open, stack)
    ensures Limit(open) == 14 - |stack|
  {
  }

  /** Inside how many typedefs an object can stand: its own fence must be below the
      typedef's, which has a colon less for each level, and what is inside it below
      its own. */
  predicate Fits(o: Object, depth: nat) {
    match o
    case Function(_, deprecated) => depth <= 10 && (deprecated && !IsTypedef(o) ==> depth <= 7)
    case Rule(_, _) => depth <= 9
    case _ => depth <= 7
  }

  lemma TypedefReads(out: seq<Token>, stack: seq<string>, name: string)
    requires |stack| <= 10 && Read(out).Some? && Matches(Read(out).value, stack)
    ensures var r := Read(out + [Open(Fence(|stack|), name)]); r.Some? && Matches(r.value, stack + [name + "."])
  {
    MatchesLimit(Read(out).value, stack);
    ReadStep(out, Open(Fence(|stack|), name));
    hide Read;
  }

  lemma DeprecatedReads(out: seq<Token>, length: nat, name: string)
    requires Read(out).Some?
    ensures var inner := Block(5, "deprecated", []);
            Read(out + Block(length, name, inner)) == if 5 < length < Limit(Read(out).value) then Read(out) else None
  {
    var (inner, first) := (Block(5, "deprecated", []), out + [Open(length, name)]);
    EmptyReads(5);
    if 5 < length {
      BlockReads(5, "deprecated", [], length);
      BlockAt(out, length, name, inner);
    } else {
      ReadStep(out, Open(length, name));
      assert out + Block(length, name, inner) == first + inner + [Close(length)];
      hide Block;
      if Read(first).Some? {
        BlockAt(first, 5, "deprecated", []);
        StuckStays(first + inner, [Close(length)]);
      } else {
        StuckStays(first, inner + [Close(length)]);
        assert first + inner + [Close(length)] == first + (inner + [Close(length)]);
      }
    }
  }

  /** What an object writes is read back exactly when it fits. */
  lemma WriteReads(out: seq<Token>, stack: seq<string>, o: Object)
    requires Read(out).Some? && Matches(Read(out).value, stack) && (o.Function? ==> |stack| <= 10)
             && (IsTypedef(o) ==> o.Function?)
    ensures var r := Read(out + Written(o, |stack|));
            if Fits(o, |stack|) then r.Some? && Matches(r.value, if IsTypedef(o) then stack + [Group(o)] else stack)
                else r.None?
  {
    hide Read, Block, Blocks, ReadsBelow, Matches, IsTypedef, Stem;
    MatchesLimit(Read(out).value, stack);
    if IsTypedef(o) {
      TypedefReads(out, stack, Stem(o));
    } else if o.Function? {
      EmptyReads(Fence(|stack|));
      if o.deprecated {
        DeprecatedReads(out, Fence(|stack|), o.name);
      } else {
        BlockAt(out, Fence(|stack|), o.name, []);
      }
    } else {
      FixedInner(o);
      BlockAt(out, Length(o, |stack|), o.name, Inner(o));
    }
  }

  /** Every object named like a placeholder is a function. */
  ghost predicate AllFunctions(objects: seq<Object>) {
    forall o :: o in objects && IsTypedef(o) ==> o.Function?
  }

  /** Every object fits inside the typedefs around it when it is rendered. */
  predicate AllFit(objects: seq<Object>) {
    objects == [] ||
      var (front, o) := (objects[..|objects| - 1], objects[|objects| - 1]);
      AllFit(front) && ProcessAll(front).Some? && Fits(o, |Popped(ProcessAll(front).value.stack, Group(o))|)
  }

  lemma ProcessReads(s: State, o: Object)
    requires Read(s.out).Some? && Matches(Read(s.out).value, s.stack) && (IsTypedef(o) ==> o.Function?)
    ensures Fits(o, |Popped(s.stack, Group(o))|) ==>
              var r := Process(s, o);
                  r.Some? && Read(r.value.out).Some? && Matches(Read(r.value.out).value, r.value.stack)
    ensures !Fits(o, |Popped(s.stack, Group(o))|) && Process(s, o).Some? ==> Read(Process(s, o).value.out).None?
  {
    PoppedIsPrefix(s.stack, Group(o));
    hide Read, Closes, Popped, Stem, IsTypedef, Written;
    var stack := Popped(s.stack, Group(o));
    ReadCloses(s.out, s.stack, |stack|);
    hide Matches;
    assert s.stack[..|stack|] == stack;
    if o.Function? ==> |stack| <= 10 { WriteReads(s.out + Closes(|s.stack|, |stack|), stack, o); }
  }

  lemma {:induction false} AllRead(objects: seq<Object>)
    requires AllFit(objects) && AllFunctions(objects)
    ensures var r := ProcessAll(objects);
            r.Some? && Read(r.value.out).Some? && Matches(Read(r.value.out).value, r.value.stack)
  {
    hide Process, Matches, IsTypedef, Fits, Popped;
    if objects == [] {
      NothingRead();
    } else {
      AllRead(objects[..|objects| - 1]);
      hide Read;
      ProcessReads(ProcessAll(objects[..|objects| - 1]).value, objects[|objects| - 1]);
    }
  }

  lemma NothingRead()
    ensures Read([]) == Some([]) && Matches([], [])
  {
  }

  lemma ProcessWrites(s: State, o: Object)
    requires Process(s, o).Some?
    ensures s.out <= Process(s, o).value.out
  {
    hide Closes, Written;
  }

  /** What is read back fits. */
  lemma {:induction false} ReadFits(objects: seq<Object>)
    requires ProcessAll(objects).Some? && AllFunctions(objects) && Read(ProcessAll(objects).value.out).Some?
    ensures AllFit(objects)
  {
    hide Process, IsTypedef, Fits, Popped, Read, Matches;
    if objects != [] {
      var (front, o) := (objects[..|objects| - 1], objects[|objects| - 1]);
      var (s, out) := (ProcessAll(front).value, ProcessAll(objects).value.out);
      assert o in objects && forall p :: p in front ==> p in objects;
      ProcessWrites(s, o);
      assert out == s.out + out[|s.out|..];
      if Read(s.out).None? { StuckStays(s.out, out[|s.out|..]); }
      ReadFits(front);
      AllRead(front);
      ProcessReads(s, o);
    }
  }

  /** Starts less ends. */
  function Balance(tokens: seq<Token>): int {
    if tokens == [] then 0 else Balance(tokens[..|tokens| - 1]) + if tokens[|tokens| - 1].Open? then 1 else -1
  }

  lemma {:induction false} ReadBalance(tokens: seq<Token>)
    ensures Read(tokens).Some? ==> Balance(tokens) == |Read(tokens).value|
  {
    if tokens != [] { ReadBalance(tokens[..|tokens| - 1]); }
  }

  lemma {:induction false} BalanceConcat(a: seq<Token>, b: seq<Token>)
    ensures Balance(a + b) == Balance(a) + Balance(b)
  {
    if b == [] {
      assert a + b == a;
    } else {
      assert (a + b)[..|a + b| - 1] == a + b[..|b| - 1];
      BalanceConcat(a, b[..|b| - 1]);
    }
  }

  lemma {:induction false} BalanceCloses(n: nat, k: nat)
    requires k <= n && Closable(n, k)
    ensures Balance(Closes(n, k)) == k - n
    decreases n
  {
    if n > k {
      BalanceCloses(n - 1, k);
      BalanceConcat([Close(Fence(n - 1))], Closes(n - 1, k));
    }
  }

  lemma BalanceBlock(length: nat, name: string, inner: seq<Token>)
    ensures Balance(Block(length, name, inner)) == Balance(inner)
  {
    BalanceConcat([Open(length, name)], inner);
    BalanceConcat([Open(length, name)] + inner, [Close(length)]);
  }

  lemma {:induction false} BalanceBlocks(count: nat, length: nat, name: string)
    ensures Balance(Blocks(count, length, name)) == 0
  {
    hide Block;
    if count > 0 {
      BalanceBlocks(count - 1, length, name);
      BalanceBlock(length, name, []);
      BalanceConcat(Blocks(count - 1, length, name), Block(length, name, []));
    }
  }

  lemma {:induction false} BalanceTags(tags: seq<nat>)
    ensures Balance(Tags(tags)) == 0
  {
    hide Block, Blocks;
    if tags != [] {
      var inner := Blocks(tags[|tags| - 1], 3, "attr-info");
      BalanceTags(tags[..|tags| - 1]);
      BalanceBlocks(tags[|tags| - 1], 3, "attr-info");
      BalanceBlock(5, "tag-class", inner);
      BalanceConcat(Tags(tags[..|tags| - 1]), Block(5, "tag-class", inner));
    }
  }

  lemma BalanceInner(o: Object)
    ensures Balance(Inner(o)) == 0
  {
    assert Balance([]) == 0;
    hide Block, Blocks, Tags, Balance;
    match o {
      case Function(_, _) => BalanceBlock(5, "deprecated", []);
      case Provider(_, fields) =>
        BalanceBlock(5, "<init>", []);
        BalanceBlocks(fields, 5, "provider-field");
        BalanceConcat(Block(5, "<init>", []), Blocks(fields, 5, "provider-field"));
      case Aspect(_, attributes) => BalanceBlocks(attributes, 3, "attr-info");
      case Extension(_, tags) => BalanceTags(tags);
      case RepositoryRule(_, attributes) => BalanceBlocks(attributes, 3, "attr-info");
      case Rule(_, attributes) => BalanceBlocks(attributes, 3, "attr-info");
    }
  }

  lemma BalanceWritten(o: Object, depth: nat)
    requires o.Function? ==> depth <= 10
    ensures Balance(Written(o, depth)) == if o.Function? && IsTypedef(o) then 1 else 0
  {
    BalanceInner(o);
    BalanceBlock(Length(o, depth), o.name, Inner(o));
    hide Block, Inner, IsTypedef, Stem;
  }

  /** The objects that are stacked without a fence. */
  function Unfenced(objects: seq<Object>): nat {
    if objects == [] then 0
    else
      var o := objects[|objects| - 1];
      Unfenced(objects[..|objects| - 1]) + if IsTypedef(o) && !o.Function? then 1 else 0
  }

  lemma {:induction false} NoneUnfenced(objects: seq<Object>)
    ensures Unfenced(objects) == 0 <==> AllFunctions(objects)
  {
    hide IsTypedef;
    if objects != [] {
      var n := |objects| - 1;
      NoneUnfenced(objects[..n]);
      assert objects == objects[..n] + [objects[n]];
    }
  }

  lemma ProcessBalance(s: State, o: Object)
    requires Process(s, o).Some?
    ensures var t := Process(s, o).value;
            Balance(t.out) - |t.stack| == Balance(s.out) - |s.stack| - if IsTypedef(o) && !o.Function? then 1 else 0
  {
    PoppedIsPrefix(s.stack, Group(o));
    var k := |Popped(s.stack, Group(o))|;
    BalanceCloses(|s.stack|, k);
    BalanceWritten(o, k);
    hide Balance, Closes, Popped, IsTypedef, Group, Written;
    BalanceConcat(s.out, Closes(|s.stack|, k));
    BalanceConcat(s.out + Closes(|s.stack|, k), Written(o, k));
  }

  lemma {:induction false} AllBalance(objects: seq<Object>)
    requires ProcessAll(objects).Some?
    ensures var s := ProcessAll(objects).value; Balance(s.out) == |s.stack| - Unfenced(objects)
  {
    hide Process, IsTypedef;
    if objects != [] {
      AllBalance(objects[..|objects| - 1]);
      ProcessBalance(ProcessAll(objects[..|objects| - 1]).value, objects[|objects| - 1]);
    }
  }

  /** The output is well nested, every fence closed by one of its length and what
      stands inside it strictly shorter. */
  ghost predicate IsNested(objects: seq<Object>) {
    Render(objects).Some? && Read(Render(objects).value) == Some([])
  }

  /** A module renders well nested exactly when every object with a placeholder's
      name is a function, another one being closed without ever having been opened,
      and every object fits inside the typedefs around it. */
  lemma RenderedIsNested(objects: seq<Object>)
    ensures IsNested(objects) <==> AllFunctions(objects) && AllFit(objects)
  {
    hide Process, Read, Closes, Balance, AllFunctions, AllFit;
    if AllFunctions(objects) && AllFit(objects) {
      AllRead(objects);
      var s := ProcessAll(objects).value;
      ReadCloses(s.out, s.stack, 0);
    }
    if IsNested(objects) {
      var s := ProcessAll(objects).value;
      AllBalance(objects);
      BalanceCloses(|s.stack|, 0);
      BalanceConcat(s.out, Closes(|s.stack|, 0));
      ReadBalance(Render(objects).value);
      NoneUnfenced(objects);
      if Read(s.out).None? { StuckStays(s.out, Closes(|s.stack|, 0)); }
      ReadFits(objects);
    }
  }

  // -------------------------------------------------------------- containment

  /** The typedefs around the i-th object when it is rendered. */
  function Around(objects: seq<Object>, i: nat): seq<string>
    requires i < |objects| && ProcessAll(objects[..i]).Some?
  {
    Popped(ProcessAll(objects[..i]).value.stack, Group(objects[i]))
  }

  /** Dotted identifiers: no character sorts before the dot. */
  predicate IsDotted(s: string) {
    forall i :: 0 <= i < |s| ==> s[i] >= '.'
  }

  /** Sorted by key, names distinct, and the same up to case only if the same. */
  ghost predicate WellNamed(objects: seq<Object>) {
    && (forall i :: 0 <= i < |objects| ==> IsDotted(Key(objects[i])))
    && (forall i, j :: 0 <= i < j < |objects| ==> AtMost(Key(objects[i]), Key(objects[j])))
    && (forall i, j :: 0 <= i < j < |objects| ==> Group(objects[i]) != Group(objects[j]))
    && (forall i, j ::
          0 <= i < |objects| && 0 <= j < |objects| && Lower(Group(objects[i])) <= Lower(Group(objects[j])) ==>
            Group(objects[i]) <= Group(objects[j]))
  }

  /** Between a string and an extension of it in order, all extend it. */
  lemma {:induction false} BetweenExtends(a: string, b: string, c: string)
    requires AtMost(a, b) && AtMost(b, c) && a <= c
    ensures a <= b
  {
    if a != "" && a != b {
      if b == c {
      } else {
        assert a[0] == c[0] && b != "" && b[0] == a[0];
        BetweenExtends(a[1..], b[1..], c[1..]);
        assert a == [a[0]] + a[1..] && b == [b[0]] + b[1..];
      }
    }
  }

  /** What sorts between a dotted name and a name below it is the name itself or
      below it too. */
  lemma {:induction false} BetweenIsBelow(a: string, b: string, c: string)
    requires AtMost(a, b) && AtMost(b, c) && a + "." <= c + "." && IsDotted(b)
    ensures a + "." <= b + "."
  {
    assert a == (a + ".")[..|a|] == (c + ".")[..|a|];
    assert a <= c;
    BetweenExtends(a, b, c);
    if a != b && b != c {
      SharedPrefix(a, b, c);
      assert c[|a|] == (c + ".")[|a|] == '.';
      assert b[|a|] >= '.';
    }
  }

  /** After a common prefix the order is that of the next characters. */
  lemma {:induction false} SharedPrefix(a: string, b: string, c: string)
    requires a <= b && a <= c && Less(b, c) && |a| < |b|
    ensures |a| < |c| && b[|a|] <= c[|a|]
  {
    if a != "" { SharedPrefix(a[1..], b[1..], c[1..]); }
  }

  lemma LowerGroup(o: Object)
    ensures Lower(Group(o)) == Key(o) + "."
  {
    var (l, r) := (Lower(Group(o)), Key(o) + ".");
    assert Group(o) == Stem(o) + ".";
    assert |l| == |r| && forall i :: 0 <= i < |l| ==> l[i] == r[i];
  }

  lemma {:induction false} LowerPrefix(a: string, b: string)
    requires a <= b
    ensures Lower(a) <= Lower(b)
  {
    assert Lower(b)[..|a|] == Lower(a);
  }

  lemma WellNamedAt(objects: seq<Object>, i: nat, j: nat)
    requires WellNamed(objects) && i < |objects| && j < |objects|
    ensures IsDotted(Key(objects[i]))
    ensures i < j ==> AtMost(Key(objects[i]), Key(objects[j])) && Group(objects[i]) != Group(objects[j])
    ensures Key(objects[i]) + "." <= Key(objects[j]) + "." ==> Group(objects[i]) <= Group(objects[j])
  {
    LowerGroup(objects[i]);
    LowerGroup(objects[j]);
    hide Key, Group, AtMost, IsDotted;
  }

  /** Names between a typedef and something inside it are inside it. */
  lemma BetweenIsInside(objects: seq<Object>, j: nat, k: nat, i: nat)
    requires WellNamed(objects) && j <= k <= i < |objects| && Group(objects[j]) <= Group(objects[i])
    ensures Group(objects[j]) <= Group(objects[k])
  {
    LowerGroup(objects[j]);
    LowerGroup(objects[i]);
    LowerPrefix(Group(objects[j]), Group(objects[i]));
    hide Key, Group, AtMost, IsDotted, WellNamed;
    if j < k < i {
      WellNamedAt(objects, j, k);
      WellNamedAt(objects, k, i);
      BetweenIsBelow(Key(objects[j]), Key(objects[k]), Key(objects[i]));
    }
  }

  /** A typedef that encloses an object comes before it. */
  lemma EnclosingIsEarlier(objects: seq<Object>, j: nat, i: nat)
    requires WellNamed(objects) && i < |objects| && j < |objects| && j != i && Group(objects[j]) <= Group(objects[i])
    ensures j < i
  {
    LowerGroup(objects[j]);
    LowerGroup(objects[i]);
    LowerPrefix(Group(objects[j]), Group(objects[i]));
    hide Group, Key, Less, IsDotted, AtMost;
    if i < j {
      DistinctKeys(objects, i, j);
      WellNamedAt(objects, i, j);
      ShorterIsFirst(Key(objects[j]), Key(objects[i]));
    }
  }

  lemma DistinctKeys(objects: seq<Object>, i: nat, j: nat)
    requires WellNamed(objects) && i < j < |objects|
    ensures Key(objects[i]) != Key(objects[j])
  {
    WellNamedAt(objects, i, j);
    WellNamedAt(objects, j, i);
    hide Group, Key, AtMost, WellNamed;
    var (g, h) := (Group(objects[i]), Group(objects[j]));
    assert g <= h && h <= g ==> g == h;
  }

  lemma ShorterIsFirst(a: string, c: string)
    requires a + "." <= c + "." && AtMost(c, a)
    ensures a == c
  {
    assert a == (a + ".")[..|a|] == (c + ".")[..|a|];
    assert a <= c;
    if a != c {
      PrefixLess(a, c);
      LessAsymmetric(a, c);
    }
  }

  /** The stack is a chain of proper prefixes. */
  ghost predicate IsChain(stack: seq<string>) {
    forall i, j :: 0 <= i < j < |stack| ==> stack[i] < stack[j]
  }

  lemma {:induction false} PoppedKeeps(stack: seq<string>, group: string, g: string)
    requires IsChain(stack)
    ensures g in Popped(stack, group) <==> g in stack && g <= group
    ensures IsChain(Popped(stack, group)) && forall h :: h in Popped(stack, group) ==> h <= group
  {
    if stack != [] {
      var top, below := stack[|stack| - 1], stack[..|stack| - 1];
      if top <= group {
        forall h | h in stack ensures h <= group {
          var i :| 0 <= i < |stack| && stack[i] == h;
          if i < |stack| - 1 { assert stack[i] < stack[|stack| - 1]; }
        }
      } else {
        PoppedKeeps(below, group, g);
        assert stack == below + [top];
      }
    }
  }

  /** The groups on the stack: the typedefs so far that enclose the last object,
      or are it. */
  ghost predicate StackIs(stack: seq<string>, objects: seq<Object>) {
    && IsChain(stack)
    && (objects == [] ==> stack == [])
    && (objects != [] ==> forall g :: g in stack <==>
          exists j :: 0 <= j < |objects| && IsTypedef(objects[j]) && Group(objects[j])
              == g && g <= Group(objects[|objects| - 1]))
  }

  /** What stays when the next object is reached. */
  lemma AroundNext(stack: seq<string>, objects: seq<Object>, i: nat, g: string)
    requires WellNamed(objects) && i < |objects| && StackIs(stack, objects[..i])
    ensures IsChain(Popped(stack, Group(objects[i])))
    ensures g in Popped(stack, Group(objects[i])) <==>
            exists j :: 0 <= j < i && IsTypedef(objects[j]) && Group(objects[j]) == g && g <= Group(objects[i])
  {
    PoppedKeeps(stack, Group(objects[i]), g);
    hide Popped, Group, IsTypedef, Less, IsDotted;
    if i > 0 {
      assert objects[..i][i - 1] == objects[i - 1];
      if j :| 0 <= j < i && IsTypedef(objects[j]) && Group(objects[j]) == g && g <= Group(objects[i]) {
        BetweenIsInside(objects, j, i - 1, i);
        assert objects[..i][j] == objects[j];
      }
      if g in stack {
        var j :| 0 <= j < i && IsTypedef(objects[..i][j]) && Group(objects[..i][j])
            == g && g <= Group(objects[..i][i - 1]);
        assert objects[..i][j] == objects[j];
      }
    }
  }

  lemma {:induction false} StackHolds(objects: seq<Object>, i: nat)
    requires WellNamed(objects) && i <= |objects| && ProcessAll(objects[..i]).Some?
    ensures StackIs(ProcessAll(objects[..i]).value.stack, objects[..i])
  {
    hide WellNamed, Popped, Closes, Group, IsTypedef, StackIs, Process;
    if i == 0 {
      assert objects[..0] == [];
      NoStack();
    } else {
      assert objects[..i][..i - 1] == objects[..i - 1] && objects[..i][i - 1] == objects[i - 1];
      StackHolds(objects, i - 1);
      var s := ProcessAll(objects[..i - 1]).value;
      ProcessStack(s, objects[i - 1]);
      StackNext(s.stack, objects, i - 1);
    }
  }

  lemma NoStack()
    ensures StackIs([], [])
  {
  }

  lemma StackNext(stack: seq<string>, objects: seq<Object>, i: nat)
    requires WellNamed(objects) && i < |objects| && StackIs(stack, objects[..i])
    ensures var kept := Popped(stack, Group(objects[i]));
            StackIs(if IsTypedef(objects[i]) then kept + [Group(objects[i])] else kept, objects[..i + 1])
  {
    hide WellNamed, Popped, Group, IsTypedef;
    var o := objects[i];
    var kept := Popped(stack, Group(o));
    var after := if IsTypedef(o) then kept + [Group(o)] else kept;
    forall g ensures g in kept <==>
        exists j :: 0 <= j < i && IsTypedef(objects[j]) && Group(objects[j]) == g && g <= Group(o) {
      AroundNext(stack, objects, i, g);
    }
    OthersGroup(objects, i);
    PoppedChain(stack, Group(o));
    var seen := objects[..i + 1];
    assert seen[i] == o;
    forall g ensures g in after <==>
        exists j :: 0 <= j < |seen| && IsTypedef(seen[j]) && Group(seen[j]) == g && g <= Group(o) {
      if j :| 0 <= j < |seen| && IsTypedef(seen[j]) && Group(seen[j]) == g && g <= Group(o) {
        assert seen[j] == objects[j];
      }
      if g in kept {
        var j :| 0 <= j < i && IsTypedef(objects[j]) && Group(objects[j]) == g && g <= Group(o);
        assert seen[j] == objects[j];
      }
    }
  }

  lemma ProcessStack(s: State, o: Object)
    requires Process(s, o).Some?
    ensures var kept := Popped(s.stack, Group(o));
            Process(s, o).value.stack == if IsTypedef(o) then kept + [Group(o)] else kept
  {
    hide Popped, Closes, Group;
  }

  lemma OthersGroup(objects: seq<Object>, i: nat)
    requires WellNamed(objects) && i < |objects|
    ensures forall j :: 0 <= j < i ==> Group(objects[j]) != Group(objects[i])
  {
    hide Group, Key;
  }

  lemma ProperPrefix(a: string, b: string)
    requires a <= b && a != b
    ensures a < b
  {
    assert b[..|a|] == a;
    assert b == b[..|a|] + b[|a|..];
  }

  lemma PoppedChain(stack: seq<string>, group: string)
    requires IsChain(stack) && group !in Popped(stack, group)
    ensures IsChain(Popped(stack, group)) && IsChain(Popped(stack, group) + [group])
  {
    PoppedKeeps(stack, group, group);
    hide Popped;
    var kept := Popped(stack, group);
    forall i, j | 0 <= i < j < |kept + [group]| ensures (kept + [group])[i] < (kept + [group])[j] {
      if j == |kept| {
        assert kept[i] in kept;
        ProperPrefix(kept[i], group);
      }
    }
  }

  /** Each object is rendered inside exactly the typedefs whose name is a dotted
      prefix of its own. */
  lemma InsideItsTypedefs(objects: seq<Object>, i: nat, g: string)
    requires WellNamed(objects) && i < |objects| && ProcessAll(objects[..i]).Some?
    ensures g in Around(objects, i) <==>
            exists j :: 0 <= j < |objects| && j != i && IsTypedef(objects[j]) && Group(objects[j])
                == g && g <= Group(objects[i])
  {
    hide WellNamed, Popped, ProcessAll, Group, IsTypedef, StackIs;
    StackHolds(objects, i);
    AroundNext(ProcessAll(objects[..i]).value.stack, objects, i, g);
    if j :| 0 <= j < |objects| && j != i && IsTypedef(objects[j]) && Group(objects[j]) == g && g <= Group(objects[i]) {
      EnclosingIsEarlier(objects, j, i);
    }
  }

  // -------------------------------------------------------------------- depth

  lemma {:induction false} CountConcat(a: string, b: string, c: char)
    ensures Count(a + b, c) == Count(a, c) + Count(b, c)
  {
    if a == "" {
      assert a + b == b;
    } else {
      assert (a + b)[1..] == a[1..] + b;
      CountConcat(a[1..], b, c);
    }
  }

  lemma {:induction false} ChainCount(stack: seq<string>)
    requires IsChain(stack) && forall i :: 0 <= i < |stack| ==> stack[i] != "" && stack[i][|stack[i]| - 1] == '.'
    ensures stack != [] ==> Count(stack[|stack| - 1], '.') >= |stack|
  {
    if stack != [] {
      var n := |stack| - 1;
      var top := stack[n];
      CountConcat(top[..|top| - 1], ".", '.');
      assert top == top[..|top| - 1] + "." && Count(".", '.') == 1;
      if n > 0 {
        ChainCount(stack[..n]);
        var below := stack[..n][n - 1];
        assert below < top;
        var middle := top[|below|..|top| - 1];
        assert top[..|top| - 1] == below + middle;
        CountConcat(below, middle, '.');
      }
    }
  }

  lemma AroundElement(objects: seq<Object>, i: nat, g: string)
    requires WellNamed(objects) && i < |objects| && ProcessAll(objects[..i]).Some? && g in Around(objects, i)
    ensures g != "" && g[|g| - 1] == '.' && g <= Stem(objects[i])
  {
    InsideItsTypedefs(objects, i, g);
    hide Around, ProcessAll, IsTypedef, Stem, WellNamed;
    var j :| 0 <= j < |objects| && j != i && IsTypedef(objects[j]) && Group(objects[j]) == g && g <= Group(objects[i]);
    OthersGroup(objects, if j < i then i else j);
    ProperPrefix(g, Group(objects[i]));
    assert g == Group(objects[i])[..|g|] == Stem(objects[i])[..|g|];
  }

  /** The typedefs around an object are at most the dots of its name. */
  lemma AroundIsShallow(objects: seq<Object>, i: nat)
    requires WellNamed(objects) && i < |objects| && ProcessAll(objects[..i]).Some?
    ensures |Around(objects, i)| <= Count(Stem(objects[i]), '.')
  {
    var around := Around(objects, i);
    StackHolds(objects, i);
    PoppedKeeps(ProcessAll(objects[..i]).value.stack, Group(objects[i]), "");
    assert IsChain(around);
    hide WellNamed, Popped, ProcessAll, IsTypedef, Stem, Group, Around, IsChain, Count;
    forall k | 0 <= k < |around|
      ensures around[k] != "" && around[k][|around[k]| - 1] == '.' && around[k] <= Stem(objects[i]) {
      assert around[k] in around;
      AroundElement(objects, i, around[k]);
    }
    ChainCount(around);
    if around != [] {
      var (g, stem) := (around[|around| - 1], Stem(objects[i]));
      CountConcat(g, stem[|g|..], '.');
      assert stem == g + stem[|g|..];
    }
  }

  /** The typedefs whose name is a dotted prefix of the object's. */
  function Enclosing(objects: seq<Object>, o: Object): set<string> {
    set p | p in objects && p != o && IsTypedef(p) && Group(p) <= Group(o) :: Group(p)
  }

  /** Every object fits inside the typedefs that its name says. */
  ghost predicate HasRoom(objects: seq<Object>) {
    forall o :: o in objects ==> Fits(o, |Enclosing(objects, o)|)
  }

  lemma {:induction false} ChainSize(stack: seq<string>)
    requires IsChain(stack)
    ensures |set g | g in stack| == |stack|
  {
    if stack == [] {
      assert (set g | g in stack) == {};
    } else {
      var (front, top) := (stack[..|stack| - 1], stack[|stack| - 1]);
      ChainSize(front);
      assert (set g | g in stack) == (set g | g in front) + {top};
      assert top !in front;
    }
  }

  /** Distinct places hold distinct objects. */
  lemma DistinctObjects(objects: seq<Object>, i: nat, j: nat)
    requires WellNamed(objects) && i < |objects| && j < |objects| && i != j
    ensures objects[i] != objects[j]
  {
    if i < j { WellNamedAt(objects, i, j); }
    if j < i { WellNamedAt(objects, j, i); }
  }

  lemma AroundElements(objects: seq<Object>, i: nat, g: string)
    requires WellNamed(objects) && i < |objects| && ProcessAll(objects[..i]).Some?
    ensures g in Around(objects, i) <==> g in Enclosing(objects, objects[i])
  {
    hide WellNamed, ProcessAll, Group, IsTypedef, Around;
    InsideItsTypedefs(objects, i, g);
    var o := objects[i];
    if j :| 0 <= j < |objects| && j != i && IsTypedef(objects[j]) && Group(objects[j]) == g && g <= Group(o) {
      DistinctObjects(objects, i, j);
      assert objects[j] in objects;
    }
    if p :| p in objects && p != o && IsTypedef(p) && Group(p) <= Group(o) && Group(p) == g {
      var j :| 0 <= j < |objects| && objects[j] == p;
    }
  }

  lemma AroundIsEnclosing(objects: seq<Object>, i: nat)
    requires WellNamed(objects) && i < |objects| && ProcessAll(objects[..i]).Some?
    ensures |Around(objects, i)| == |Enclosing(objects, objects[i])|
  {
    var around := Around(objects, i);
    StackHolds(objects, i);
    PoppedKeeps(ProcessAll(objects[..i]).value.stack, Group(objects[i]), "");
    assert IsChain(around);
    hide WellNamed, ProcessAll, Group, Around, IsChain, Enclosing;
    ChainSize(around);
    forall g ensures g in around <==> g in Enclosing(objects, objects[i]) { AroundElements(objects, i, g); }
    assert (set g | g in around) == Enclosing(objects, objects[i]);
  }

  lemma {:induction false} FitIff(objects: seq<Object>, i: nat)
    requires WellNamed(objects) && AllFunctions(objects) && i <= |objects|
    ensures AllFit(objects[..i]) <==> forall k :: 0 <= k < i ==> Fits(objects[k], |Enclosing(objects, objects[k])|)
  {
    hide WellNamed, Enclosing, Fits, Popped, IsTypedef, Group, Matches, Read, ProcessAll;
    if i > 0 {
      var front := objects[..i - 1];
      assert objects[..i][..i - 1] == front && objects[..i][i - 1] == objects[i - 1];
      FitIff(objects, i - 1);
      if AllFit(front) {
        assert forall o :: o in front ==> o in objects;
        AllRead(front);
        AroundIsEnclosing(objects, i - 1);
      }
    }
  }

  /** In a sorted module the room can be read off the names. */
  lemma NestedIff(objects: seq<Object>)
    requires WellNamed(objects)
    ensures IsNested(objects) <==> AllFunctions(objects) && HasRoom(objects)
  {
    RenderedIsNested(objects);
    hide WellNamed, IsNested, AllFit, Enclosing, Fits, IsTypedef;
    if AllFunctions(objects) {
      FitIff(objects, |objects|);
      assert objects[..|objects|] == objects;
      if HasRoom(objects) {
        forall k | 0 <= k < |objects| ensures Fits(objects[k], |Enclosing(objects, objects[k])|) {
          assert objects[k] in objects;
        }
      }
      if AllFit(objects) {
        forall o | o in objects ensures Fits(o, |Enclosing(objects, o)|) {
          var k :| 0 <= k < |objects| && objects[k] == o;
        }
      }
    }
  }

  lemma {:induction false} ShallowFits(objects: seq<Object>, i: nat)
    requires WellNamed(objects) && AllFunctions(objects) && i <= |objects|
    requires forall k :: 0 <= k < |objects| ==> Fits(objects[k], Count(Stem(objects[k]), '.'))
    ensures AllFit(objects[..i])
  {
    hide WellNamed, Popped, Group, IsTypedef, Stem, Count, Matches, Read, ProcessAll;
    if i > 0 {
      var front := objects[..i - 1];
      assert objects[..i][..i - 1] == front && objects[..i][i - 1] == objects[i - 1];
      ShallowFits(objects, i - 1);
      assert forall o :: o in front ==> o in objects;
      AllRead(front);
      AroundIsShallow(objects, i - 1);
    }
  }

  /** A module with few enough dots in its names for their kinds is well nested
      exactly if its placeholders are functions. */
  lemma ShallowIsNested(objects: seq<Object>)
    requires WellNamed(objects) && forall k :: 0 <= k < |objects| ==> Fits(objects[k], Count(Stem(objects[k]), '.'))
    ensures IsNested(objects) <==> AllFunctions(objects)
  {
    RenderedIsNested(objects);
    assert objects[..|objects|] == objects;
    hide WellNamed, IsNested, AllFit, Fits, AllFunctions;
    if AllFunctions(objects) { ShallowFits(objects, |objects|); }
  }

  /** With at most ten dots in each name the fence length never runs out. */
  lemma {:induction false} ShallowRenders(objects: seq<Object>, i: nat)
    requires WellNamed(objects) && i <= |objects| && forall k :: 0 <= k < |objects| ==>
               Count(Stem(objects[k]), '.') <= 10
    ensures ProcessAll(objects[..i]).Some? && |ProcessAll(objects[..i]).value.stack| <= 11
  {
    hide WellNamed, Popped, Closes, Group, IsTypedef, Stem, Written;
    if i > 0 {
      ShallowRenders(objects, i - 1);
      AroundIsShallow(objects, i - 1);
      assert objects[..i][..i - 1] == objects[..i - 1] && objects[..i][i - 1] == objects[i - 1];
    }
  }

  /** Such a module renders, whatever its objects are. */
  lemma ModuleRenders(objects: seq<Object>)
    requires WellNamed(objects) && forall k :: 0 <= k < |objects| ==> Count(Stem(objects[k]), '.') <= 10
    ensures Render(objects).Some?
            && (Read(Render(objects).value) == Some([]) <==> AllFunctions(objects) && HasRoom(objects))
  {
    ShallowRenders(objects, |objects|);
    assert objects[..|objects|] == objects;
    hide WellNamed, Read, ProcessAll, HasRoom, AllFunctions;
    NestedIff(objects);
  }

  // ------------------------------------------------------------ a tall module

  /** `a`, `a.a`, `a.a.a`, ... */
  function Path(n: nat): string {
    if n == 0 then "a" else Path(n - 1) + ".a"
  }

  /** Typedefs, each inside the one before. */
  function Tower(n: nat): seq<Object> {
    if n == 0 then [] else Tower(n - 1) + [Function(Path(n - 1) + TYPEDEF, false)]
  }

  function Groups(n: nat): seq<string> {
    if n == 0 then [] else Groups(n - 1) + [Path(n - 1) + "."]
  }

  lemma PathGroup(n: nat)
    ensures Group(Function(Path(n) + TYPEDEF, false)) == Path(n) + "." && IsTypedef(Function(Path(n) + TYPEDEF, false))
    ensures Path(n) + "." <= Path(n + 1) + "."
  {
    var o := Function(Path(n) + TYPEDEF, false);
    assert o.name[|o.name| - |TYPEDEF|..] == TYPEDEF && o.name[..|o.name| - |TYPEDEF|] == Path(n);
    assert Path(n + 1) + "." == Path(n) + "." + "a" + ".";
  }

  lemma AppendFits(front: seq<Object>, o: Object)
    requires AllFit(front) && ProcessAll(front).Some? && Fits(o, |Popped(ProcessAll(front).value.stack, Group(o))|)
    ensures AllFit(front + [o]) && ProcessAll(front + [o]) == Process(ProcessAll(front).value, o)
  {
    hide Process, Fits, Popped;
    assert (front + [o])[..|front|] == front;
  }

  /** On a tower nothing is popped for what is inside its top. */
  lemma TopKept(n: nat, o: Object)
    requires n > 0 ==> Path(n - 1) + "." <= Group(o)
    ensures Popped(Groups(n), Group(o)) == Groups(n)
  {
    hide Path, Group;
  }

  lemma TypedefStacks(s: State, n: nat)
    requires s.stack == Groups(n) && |Groups(n)| == n <= 10
    ensures var (o, r) := (Function(Path(n) + TYPEDEF, false), Process(s, Function(Path(n) + TYPEDEF, false)));
            r.Some? && r.value.stack == Groups(n + 1) && |Popped(s.stack, Group(o))| == n
  {
    var o := Function(Path(n) + TYPEDEF, false);
    PathGroup(n);
    if n > 0 { PathGroup(n - 1); }
    hide Path, Group, IsTypedef, Popped, Closes, Written;
    TopKept(n, o);
  }

  lemma {:induction false} TowerStands(n: nat)
    requires n <= 11
    ensures AllFit(Tower(n)) && AllFunctions(Tower(n)) && ProcessAll(Tower(n)).Some?
            && ProcessAll(Tower(n)).value.stack == Groups(n)
    ensures |Groups(n)| == n
  {
    hide Process, Popped, Group, IsTypedef, Path;
    if n > 0 {
      TowerStands(n - 1);
      TypedefStacks(ProcessAll(Tower(n - 1)).value, n - 1);
      AppendFits(Tower(n - 1), Function(Path(n - 1) + TYPEDEF, false));
    }
  }

  /** An object inside n typedefs is well nested exactly when it fits there: with
      eight of them the inner fence has the six colons of a provider's own, whose
      end closes the typedef. */
  lemma TowerIsNestedIff(n: nat, o: Object)
    requires 1 <= n <= 11 && !IsTypedef(o) && Path(n - 1) + "." <= Group(o)
    ensures IsNested(Tower(n) + [o]) <==> Fits(o, n)
  {
    TowerStands(n);
    TopKept(n, o);
    RenderedIsNested(Tower(n) + [o]);
    var objects := Tower(n) + [o];
    assert objects[..|objects| - 1] == Tower(n);
    hide IsNested, Process, Fits, Tower, Groups, Path, Popped;
  }

  // ------------------------------------------------------------- whole modules

  /** A module's objects, in any order: dotted identifiers, each group once, and
      names that differ only by case do not occur. */
  ghost predicate GoodModule(objects: seq<Object>) {
    && (forall o :: o in objects ==> IsDotted(Key(o)) && multiset(objects)[o] == 1)
    && (forall o, p :: o in objects && p in objects && Group(o) == Group(p) ==> o == p)
    && (forall o, p :: o in objects && p in objects && Lower(Group(o)) <= Lower(Group(p)) ==> Group(o) <= Group(p))
  }

  lemma {:induction false} TwiceCounts(objects: seq<Object>, i: nat, j: nat)
    requires i < j < |objects| && objects[i] == objects[j]
    ensures multiset(objects)[objects[i]] >= 2
  {
    var x := objects[i];
    assert objects == objects[..i] + [x] + objects[i + 1..j] + [x] + objects[j + 1..];
    assert multiset(objects)
           == multiset(objects[..i]) + multiset{x} + multiset(objects[i + 1..j]) + multiset{x}
               + multiset(objects[j + 1..]);
  }

  /** Sorting puts a module's objects in the order that nests them. */
  lemma SortedIsWellNamed(objects: seq<Object>)
    requires GoodModule(objects)
    ensures WellNamed(StableSorted(objects, Key))
  {
    SortedByKey(objects, Key);
    var sorted := StableSorted(objects, Key);
    hide StableSorted, Key, Group, IsDotted, AtMost;
    forall i | 0 <= i < |sorted| ensures sorted[i] in objects { assert sorted[i] in sorted; }
    forall i, j | 0 <= i < j < |sorted| ensures Group(sorted[i]) != Group(sorted[j]) {
      if sorted[i] == sorted[j] { TwiceCounts(sorted, i, j); }
    }
  }

  /** A module renders well nested exactly if its placeholders are functions and
      each object fits inside the typedefs that its name says; then it stands inside
      exactly these. */
  lemma ModuleIsNested(objects: seq<Object>, i: nat, g: string)
    requires GoodModule(objects)
    ensures var sorted := StableSorted(objects, Key);
            && (IsNested(sorted) <==> AllFunctions(objects) && HasRoom(objects))
            && |sorted| == |objects|
            && ((forall o :: o in objects ==> Count(Stem(o), '.') <= 10) ==>
                 Render(sorted).Some? && (i < |objects| ==> ProcessAll(sorted[..i]).Some?))
            && (i < |objects| && ProcessAll(sorted[..i]).Some? ==>
                  (g in Around(sorted, i) <==>
                      exists o :: o in objects && o != sorted[i] && IsTypedef(o) && Group(o)
                          == g && g <= Group(sorted[i])))
  {
    var sorted := StableSorted(objects, Key);
    SortedByKey(objects, Key);
    SortedIsWellNamed(objects);
    assert |sorted| == |multiset(sorted)| == |multiset(objects)| == |objects|;
    hide StableSorted, Key, Group, IsNested, Around, WellNamed, IsTypedef, AllFunctions, HasRoom, ProcessAll, Stem,
         Count, Render;
    SameRoom(sorted, objects);
    NestedIff(sorted);
    if forall o :: o in objects ==> Count(Stem(o), '.') <= 10 {
      forall k | 0 <= k < |sorted| ensures Count(Stem(sorted[k]), '.') <= 10 { assert sorted[k] in sorted; }
      ModuleRenders(sorted);
      if i < |objects| { ShallowRenders(sorted, i); }
    }
    if i < |objects| && ProcessAll(sorted[..i]).Some? {
      InsideItsTypedefs(sorted, i, g);
      ByObject(objects, sorted, i, g);
    }
  }

  lemma SameRoom(a: seq<Object>, b: seq<Object>)
    requires forall o :: o in a <==> o in b
    ensures (AllFunctions(a) <==> AllFunctions(b)) && (HasRoom(a) <==> HasRoom(b))
  {
    hide IsTypedef, Group, Fits;
    forall o ensures Enclosing(a, o) == Enclosing(b, o) {}
  }

  lemma ByObject(objects: seq<Object>, sorted: seq<Object>, i: nat, g: string)
    requires GoodModule(objects) && multiset(sorted) == multiset(objects) && i < |sorted|
    requires forall o :: o in sorted <==> o in objects
    ensures (exists j ::
              0 <= j < |sorted| && j != i && IsTypedef(sorted[j]) && Group(sorted[j]) == g && g <= Group(sorted[i]))
            <==> exists o :: o in objects && o != sorted[i] && IsTypedef(o) && Group(o) == g && g <= Group(sorted[i])
  {
    hide Group, Key, IsDotted, IsTypedef;
    if j :| 0 <= j < |sorted| && j != i && IsTypedef(sorted[j]) && Group(sorted[j]) == g && g <= Group(sorted[i]) {
      assert sorted[j] in sorted && sorted[i] in sorted;
      if sorted[j] == sorted[i] { TwiceCounts(sorted, if j < i then j else i, if j < i then i else j); }
    }
    if o :| o in objects && o != sorted[i] && IsTypedef(o) && Group(o) == g && g <= Group(sorted[i]) {
      assert o in sorted;
      var j :| 0 <= j < |sorted| && sorted[j] == o;
    }
  }
}
