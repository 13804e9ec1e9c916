/** Which directives a rendered module starts, in their order. */
module TypedefNames {
  import opened Text
  import opened Typedefs

  /** The names of the fences that are opened, as they come. */
  function Opened(tokens: seq<Token>): seq<string> {
    if tokens == [] then []
    else Opened(tokens[..|tokens| - 1]) + if tokens[|tokens| - 1].Open? then [tokens[|tokens| - 1].name] else []
  }

  function Times(n: nat, name: string): seq<string> {
    seq(n, _ => name)
  }

  function TagNames(tags: seq<nat>): seq<string> {
    if tags == [] then [] else TagNames(tags[..|tags| - 1]) + ["tag-class"] + Times(tags[|tags| - 1], "attr-info")
  }

  /** What an object is written as: its name, without the suffix for a typedef's
      placeholder, and one directive to each of its parts. */
  function NamesIn(o: Object): seq<string> {
    match o
    case Function(name, deprecated) =>
      if EndsWith(name, ".TYPEDEF") then [name[..|name| - 8]]
      else if deprecated then [name, "deprecated"]
      else [name]
    case Provider(name, fields) => [name, "<init>"] + Times(fields, "provider-field")
    case Aspect(name, attributes) => [name] + Times(attributes, "attr-info")
    case Extension(name, tags) => [name] + TagNames(tags)
    case RepositoryRule(name, attributes) => [name] + Times(attributes, "attr-info")
    case Rule(name, attributes) => [name] + Times(attributes, "attr-info")
  }

  function AllNames(objects: seq<Object>): seq<string> {
    if objects == [] then [] else AllNames(objects[..|objects| - 1]) + NamesIn(objects[|objects| - 1])
  }

  lemma {:induction false} OpenedConcat(a: seq<Token>, b: seq<Token>)
    ensures Opened(a + b) == Opened(a) + Opened(b)
  {
    if b == [] {
      assert a + b == a;
    } else {
      assert (a + b)[..|a + b| - 1] == a + b[..|b| - 1];
      OpenedConcat(a, b[..|b| - 1]);
    }
  }

  lemma OneOpened(t: Token)
    ensures Opened([t]) == if t.Open? then [t.name] else []
  {
    assert [t][..0] == [];
  }

  lemma BlockOpened(length: nat, name: string, inner: seq<Token>)
    ensures Opened(Block(length, name, inner)) == [name] + Opened(inner)
  {
    OneOpened(Open(length, name));
    OneOpened(Close(length));
    hide Opened;
    OpenedConcat([Open(length, name)] + inner, [Close(length)]);
    OpenedConcat([Open(length, name)], inner);
    assert [name] + Opened(inner) + [] == [name] + Opened(inner);
  }

  lemma {:induction false} BlocksOpened(count: nat, length: nat, name: string)
    ensures Opened(Blocks(count, length, name)) == Times(count, name)
  {
    if count > 0 {
      BlocksOpened(count - 1, length, name);
      BlockOpened(length, name, []);
      OpenedConcat(Blocks(count - 1, length, name), Block(length, name, []));
      hide Block;
      assert Opened([]) == [] && [name] + [] == [name];
      assert Times(count, name) == Times(count - 1, name) + [name];
    }
  }

  lemma {:induction false} TagsOpened(tags: seq<nat>)
    ensures Opened(Tags(tags)) == TagNames(tags)
  {
    if tags != [] {
      var (front, last) := (tags[..|tags| - 1], tags[|tags| - 1]);
      TagsOpened(front);
      BlocksOpened(last, 3, "attr-info");
      BlockOpened(5, "tag-class", Blocks(last, 3, "attr-info"));
      hide Opened, Block, Blocks, Times;
      OpenedConcat(Tags(front), Block(5, "tag-class", Blocks(last, 3, "attr-info")));
    }
  }

  lemma InnerOpened(o: Object)
    ensures !(o.Function? && IsTypedef(o)) ==> [o.name] + Opened(Inner(o)) == NamesIn(o)
  {
    match o {
      case Function(name, deprecated) =>
        BlockOpened(5, "deprecated", []);
        assert Opened([]) == [] && ["deprecated"] + [] == ["deprecated"];
        assert [name] + ["deprecated"] == [name, "deprecated"] && [name] + [] == [name];
        hide Opened, Block;
      case Provider(name, fields) =>
        BlockOpened(5, "<init>", []);
        BlocksOpened(fields, 5, "provider-field");
        OpenedConcat(Block(5, "<init>", []), Blocks(fields, 5, "provider-field"));
        assert Opened([]) == [] && ["<init>"] + [] == ["<init>"];
        hide Opened, Block, Blocks, Times;
        assert [name] + (["<init>"] + Times(fields, "provider-field"))
               == [name, "<init>"] + Times(fields, "provider-field");
      case Aspect(_, attributes) => BlocksOpened(attributes, 3, "attr-info");
      case Extension(_, tags) => TagsOpened(tags);
      case RepositoryRule(_, attributes) => BlocksOpened(attributes, 3, "attr-info");
      case Rule(_, attributes) => BlocksOpened(attributes, 3, "attr-info");
    }
  }

  lemma WrittenOpened(o: Object, depth: nat)
    requires o.Function? ==> depth <= 10
    ensures Opened(Written(o, depth)) == NamesIn(o)
  {
    InnerOpened(o);
    if o.Function? && IsTypedef(o) {
      OneOpened(Open(Fence(depth), Stem(o)));
      assert |".TYPEDEF"| == 8;
    } else {
      BlockOpened(Length(o, depth), o.name, Inner(o));
      hide Opened, Block, Inner, NamesIn;
    }
  }

  lemma {:induction false} ClosesOpened(n: nat, k: nat)
    requires k <= n && Closable(n, k)
    ensures Opened(Closes(n, k)) == []
  {
    if n > k {
      ClosesOpened(n - 1, k);
      OneOpened(Close(Fence(n - 1)));
      OpenedConcat([Close(Fence(n - 1))], Closes(n - 1, k));
    }
  }

  lemma ProcessOpened(s: State, o: Object)
    requires Process(s, o).Some?
    ensures Opened(Process(s, o).value.out) == Opened(s.out) + NamesIn(o)
  {
    PoppedIsPrefix(s.stack, Group(o));
    var stack := Popped(s.stack, Group(o));
    ClosesOpened(|s.stack|, |stack|);
    WrittenOpened(o, |stack|);
    hide Opened, Closes, Written, NamesIn, Group, Popped;
    OpenedConcat(s.out + Closes(|s.stack|, |stack|), Written(o, |stack|));
    OpenedConcat(s.out, Closes(|s.stack|, |stack|));
    assert Opened(s.out) + [] == Opened(s.out);
  }

  lemma {:induction false} AllOpened(objects: seq<Object>)
    requires ProcessAll(objects).Some?
    ensures Opened(ProcessAll(objects).value.out) == AllNames(objects)
  {
    hide Process, NamesIn;
    if objects != [] {
      AllOpened(objects[..|objects| - 1]);
      ProcessOpened(ProcessAll(objects[..|objects| - 1]).value, objects[|objects| - 1]);
    }
  }

  /** A rendered module starts the directives of each of its objects once, in the
      order of the objects, and no others. */
  lemma RenderedNames(objects: seq<Object>)
    requires Render(objects).Some?
    ensures Opened(Render(objects).value) == AllNames(objects)
  {
    AllOpened(objects);
    var s := ProcessAll(objects).value;
    ClosesOpened(|s.stack|, 0);
    hide Opened, Closes, AllNames;
    OpenedConcat(s.out, Closes(|s.stack|, 0));
    assert Opened(s.out) + [] == Opened(s.out);
  }
}
