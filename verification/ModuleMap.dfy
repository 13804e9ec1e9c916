/** The modules-mapping generator's simplification: entries that a lookup walking
    up the dotted name would find anyway are dropped. */
module ModuleMap {
  import opened Text
  import opened Sorting

  type Mapping = map<string, string>

  /** `mod.rsplit(".", 1)[0]`, or None for a name without a dot. */
  function Parent(mod: string): Option<string> {
    var i := LastIndexOf(mod, '.');
    if i == -1 then None else Some(mod[..i])
  }

  /** What an import of `name` resolves to: the entry of its nearest listed
      ancestor, itself included. */
  function Lookup(m: Mapping, name: string): Option<string>
    decreases |name|
  {
    if name in m then Some(m[name]) else Inherited(m, name)
  }

  function Inherited(m: Mapping, name: string): Option<string>
    decreases |name|, 0
  {
    match Parent(name)
    case None => None
    case Some(p) => Lookup(m, p)
  }

  ghost predicate SameLookups(a: Mapping, b: Mapping) {
    forall name :: Lookup(a, name) == Lookup(b, name)
  }

  function NonEmpty(m: Mapping): Mapping {
    map k | k in m && m[k] != "" :: m[k]
  }

  /** The entries that are not already what their parent resolves to. */
  function Reduced(m: Mapping): Mapping {
    map k | k in m && m[k] != "" && Inherited(NonEmpty(m), k) != Some(m[k]) :: m[k]
  }

  /** Lookups only consult prefixes of the name. */
  lemma {:induction false} LookupNeedsPrefixes(a: Mapping, b: Mapping, name: string)
    requires forall p :: p <= name ==> (p in a <==> p in b)
    requires forall p :: p <= name && p in a && p in b ==> a[p] == b[p]
    ensures Lookup(a, name) == Lookup(b, name)
    decreases |name|
  {
    match Parent(name) {
      case None =>
      case Some(p) =>
        assert p <= name;
        LookupNeedsPrefixes(a, b, p);
    }
  }

  lemma {:induction false} ReducedLookup(m: Mapping, name: string)
    ensures Lookup(Reduced(m), name) == Lookup(NonEmpty(m), name)
    decreases |name|
  {
    match Parent(name) {
      case None =>
      case Some(p) => ReducedLookup(m, p);
    }
  }

  /** The loop's walk sees the lookup of the map built so far, and since
      ancestors sort first that is the lookup of the whole map. */
  lemma WalkSeesParents(m: Mapping, done: seq<string>, name: string, simplified: Mapping)
    requires forall k :: k in simplified <==> k in Reduced(m) && k in done
    requires forall k :: k in simplified ==> simplified[k] == m[k]
    requires forall k :: k in m && Less(k, name) ==> k in done
    requires name !in done
    ensures Lookup(simplified, name) == Inherited(NonEmpty(m), name)
  {
    match Parent(name) {
      case None =>
      case Some(p) =>
        forall q | q <= p ensures q in simplified <==> q in Reduced(m) {
          assert q < name;
          PrefixLess(q, name);
        }
        LookupNeedsPrefixes(simplified, Reduced(m), p);
        ReducedLookup(m, p);
    }
  }

  /** In sorted order the names before the i-th are exactly the smaller ones. */
  lemma SortedSplit(keys: seq<string>, i: nat)
    requires StrictlyIncreasing(keys) && i < |keys|
    ensures keys[i] !in keys[..i]
    ensures forall k :: k in keys && Less(k, keys[i]) ==> k in keys[..i]
  {
    forall j | 0 <= j < i ensures keys[j] != keys[i] { LessIrreflexive(keys[i]); }
    forall k | k in keys && Less(k, keys[i]) ensures k in keys[..i] {
      var j :| 0 <= j < |keys| && keys[j] == k;
      LessIrreflexive(k);
      if i < j { LessAsymmetric(keys[i], keys[j]); }
    }
  }

  /** A listed name is kept when its parent resolves to something else. */
  lemma KeptIff(m: Mapping, k: string)
    requires k in m
    ensures k in Reduced(m) <==> m[k] != "" && Inherited(NonEmpty(m), k) != Some(m[k])
  {
  }

  lemma ReducedIs(m: Mapping, r: Mapping)
    requires forall k :: k in r <==> k in Reduced(m) && k in m
    requires forall k :: k in r ==> k in m && r[k] == m[k]
    ensures r == Reduced(m)
  {
    hide Inherited, NonEmpty;
  }

  class Generator {
    var mapping: Mapping

    method Simplify()
      modifies this
      ensures mapping == Reduced(old(mapping))
    {
      hide Less, Inherited, NonEmpty, StrictlyIncreasing, Reduced, Lookup;
      var simplified: Mapping := map[];
      var modules := Sorted(mapping.Keys);
      for i := 0 to |modules|
        invariant mapping == old(mapping)
        invariant forall k :: k in simplified <==> k in Reduced(mapping) && k in modules[..i]
        invariant forall k :: k in simplified ==> simplified[k] == mapping[k]
      {
        var name, wheelName := modules[i], mapping[modules[i]];
        SortedSplit(modules, i);
        WalkSeesParents(mapping, modules[..i], name, simplified);
        KeptIff(mapping, name);
        wheelName := WalkUp(simplified, name, wheelName);
        if wheelName != "" {
          simplified := simplified[name := wheelName];
        }
        assert modules[..i + 1] == modules[..i] + [name];
      }
      assert modules[..|modules|] == modules;
      ReducedIs(mapping, simplified);
      mapping := simplified;
    }

    /** The inner loop: the wheel name is blanked when the nearest stored
        ancestor already carries it. */
    static method WalkUp(simplified: Mapping, name: string, wheel: string) returns (wheelName: string)
      ensures wheelName == if Lookup(simplified, name) == Some(wheel) then "" else wheel
    {
      wheelName := wheel;
      var ancestor := name;
      while true
        invariant Lookup(simplified, name) == Lookup(simplified, ancestor)
        invariant wheelName == wheel
        decreases |ancestor|
      {
        if ancestor in simplified {
          if simplified[ancestor] != wheelName { break; }
          wheelName := "";
          break;
        }
        if LastIndexOf(ancestor, '.') == -1 { break; }
        ancestor := ancestor[..LastIndexOf(ancestor, '.')];
      }
    }
  }

  /** Every dotted name resolves as before exactly when no wheel name is empty:
      an empty one is falsy and never stored. */
  lemma SimplifyPreservesLookup(m: Mapping)
    ensures SameLookups(Reduced(m), m) <==> "" !in m.Values
  {
    if "" in m.Values {
      var k :| k in m && m[k] == "";
      ReducedNeverEmpty(m, k);
      assert Lookup(m, k) == Some("");
    } else {
      assert NonEmpty(m) == m;
      forall name ensures Lookup(Reduced(m), name) == Lookup(m, name) { ReducedLookup(m, name); }
    }
  }

  lemma {:induction false} ReducedNeverEmpty(m: Mapping, name: string)
    ensures Lookup(Reduced(m), name) != Some("")
    decreases |name|
  {
    match Parent(name) {
      case None =>
      case Some(p) => ReducedNeverEmpty(m, p);
    }
  }

  /** The kept names are exactly those that resolve differently from their parent. */
  lemma KeptNames(m: Mapping, name: string)
    requires "" !in m.Values
    ensures name in Reduced(m) <==> Lookup(m, name) != Inherited(m, name)
  {
    assert NonEmpty(m) == m;
  }

  /** Every map with the same lookups holds every kept entry, so the simplified
      map is the unique smallest one. */
  lemma SimplifiedIsSmallest(m: Mapping, other: Mapping)
    requires "" !in m.Values
    requires SameLookups(m, other)
    ensures Reduced(m).Keys <= other.Keys
    ensures forall k :: k in Reduced(m) ==> other[k] == Reduced(m)[k]
  {
    forall k | k in Reduced(m) ensures k in other && other[k] == m[k] {
      KeptNames(m, k);
      assert Lookup(m, k) == Some(m[k]) == Lookup(other, k);
      match Parent(k) {
        case None =>
        case Some(p) => assert Lookup(m, p) == Lookup(other, p);
      }
    }
  }

  /** The simplified map is a normal form of the lookup function. */
  lemma SimplifiedIsCanonical(a: Mapping, b: Mapping)
    requires "" !in a.Values && "" !in b.Values
    ensures SameLookups(a, b) <==> Reduced(a) == Reduced(b)
  {
    SimplifyPreservesLookup(a);
    SimplifyPreservesLookup(b);
    if SameLookups(a, b) {
      forall k ensures k in Reduced(a) <==> k in Reduced(b) {
        KeptNames(a, k);
        KeptNames(b, k);
        match Parent(k) {
          case None =>
          case Some(p) => assert Lookup(a, p) == Lookup(b, p);
        }
        assert Lookup(a, k) == Lookup(b, k);
      }
      forall k | k in Reduced(a) ensures Reduced(a)[k] == Reduced(b)[k] {
        assert Lookup(a, k) == Lookup(b, k);
      }
    }
    if Reduced(a) == Reduced(b) {
      forall name ensures Lookup(a, name) == Lookup(b, name) {
        assert Lookup(Reduced(a), name) == Lookup(a, name);
        assert Lookup(Reduced(b), name) == Lookup(b, name);
      }
    }
  }

  /** A second run changes nothing, whatever the wheel names. */
  lemma SimplifyIdempotent(m: Mapping)
    ensures Reduced(Reduced(m)) == Reduced(m)
  {
    var r := Reduced(m);
    assert NonEmpty(r) == r;
    forall k | k in r ensures Inherited(r, k) != Some(r[k]) {
      match Parent(k) {
        case None =>
        case Some(p) => ReducedLookup(m, p);
      }
    }
  }
}
