/** The four dictionaries against the plain set of registered objects: with base
    names unique in each document, one determines the other. */
module BzlRegistry {
  import opened Text
  import opened BzlIndex
  import opened BzlCoherence

  datatype Registered = Registered(entry: Entry, aliases: set<string>)

  type Registry = map<string, Registered>

  ghost predicate GoodRegistry(reg: Registry) {
    && (forall id :: id in reg ==> reg[id].entry.fullId == id)
    && (forall i, j :: i in reg && j in reg && reg[i].entry.doc == reg[j].entry.doc && BaseName(i) == BaseName(j) ==>
         i == j)
  }

  function KindAt(reg: Registry, k: string, id: string): Option<Entry> {
    if id in reg && reg[id].entry.kind == k then Some(reg[id].entry) else None
  }

  function AliasAt(reg: Registry, a: string, id: string): Option<Entry> {
    if id in reg && (a in reg[id].aliases || a == RepoLess(id)) then Some(reg[id].entry) else None
  }

  /** `x` is the object of document `d` with base name `b`, if there is one. */
  ghost predicate DocIs(reg: Registry, d: string, b: string, x: Option<Entry>) {
    match x
    case Some(e) => e.fullId in reg && reg[e.fullId].entry == e && e.doc == d && BaseName(e.fullId) == b
    case None => forall id :: id in reg ==> !(reg[id].entry.doc == d && BaseName(id) == b)
  }

  predicate ObjectIs(ix: Index, reg: Registry, id: string) {
    (id in ix.objects <==> id in reg) && (id in reg && id in ix.objects ==> ix.objects[id] == reg[id].entry)
  }

  predicate KindIs(ix: Index, reg: Registry, k: string, id: string) {
    At(ix.byKind, k, id) == KindAt(reg, k, id)
  }

  predicate AliasIs(ix: Index, reg: Registry, a: string, id: string) {
    At(ix.altNames, a, id) == AliasAt(reg, a, id)
  }

  ghost predicate PointOk(ix: Index, reg: Registry, k: string, id: string) {
    ObjectIs(ix, reg, id) && KindIs(ix, reg, k, id) && AliasIs(ix, reg, k, id)
        && DocIs(reg, k, id, At(ix.docNames, k, id))
  }

  ghost predicate NoEmptyDoc(ix: Index) {
    forall d :: d in ix.docNames ==> ix.docNames[d] != map[]
  }

  /** The index is the one built from the registry, up to empty kind buckets. */
  ghost predicate Represents(ix: Index, reg: Registry) {
    GoodRegistry(reg) && (forall k, id :: PointOk(ix, reg, k, id)) && NoEmptyAlias(ix) && NoEmptyDoc(ix)
  }

  lemma RepresentsAt(ix: Index, reg: Registry, k: string, id: string)
    requires Represents(ix, reg)
    ensures PointOk(ix, reg, k, id) && (id in reg ==> reg[id].entry.fullId == id)
  {
    hide PointOk, NoEmptyAlias, NoEmptyDoc, BaseName;
  }

  // ------------------------------------------------------------------- adding

  ghost predicate Joins(reg: Registry, e: Entry) {
    e.fullId !in reg && forall id :: id in reg ==> !(reg[id].entry.doc == e.doc && BaseName(id) == BaseName(e.fullId))
  }

  function Enrolled(reg: Registry, e: Entry, aliases: set<string>): Registry {
    reg[e.fullId := Registered(e, aliases)]
  }

  lemma EnrolledAt(reg: Registry, e: Entry, aliases: set<string>, id: string)
    ensures var reg' := Enrolled(reg, e, aliases);
            if id == e.fullId then id in reg' && reg'[id] == Registered(e, aliases)
            else (id in reg' <==> id in reg) && (id in reg ==> reg'[id] == reg[id])
  {
  }

  lemma AddPoint(ix: Index, reg: Registry, e: Entry, aliases: set<string>, k: string, id: string)
    requires Represents(ix, reg) && Joins(reg, e)
    ensures ObjectIs(Added(ix, e, aliases), Enrolled(reg, e, aliases), id)
    ensures KindIs(Added(ix, e, aliases), Enrolled(reg, e, aliases), k, id)
    ensures AliasIs(Added(ix, e, aliases), Enrolled(reg, e, aliases), k, id)
  {
    RepresentsAt(ix, reg, k, id);
    JoinsIsNew(reg, e);
    AddedAt(ix, e, aliases, k, id);
    AddedObjectAt(ix, e, aliases, id);
    EnrolledAt(reg, e, aliases, id);
    hide Represents, At, Added, BaseName, RepoLess, DocIs, Joins, Enrolled;
  }

  lemma AddDoc(ix: Index, reg: Registry, e: Entry, aliases: set<string>, d: string, b: string)
    requires Represents(ix, reg) && Joins(reg, e)
    ensures DocIs(Enrolled(reg, e, aliases), d, b, At(Added(ix, e, aliases).docNames, d, b))
  {
    RepresentsAt(ix, reg, d, b);
    AddedAt(ix, e, aliases, d, b);
    forall id ensures var reg' := Enrolled(reg, e, aliases);
                      if id == e.fullId then id in reg' && reg'[id] == Registered(e, aliases)
                      else (id in reg' <==> id in reg) && (id in reg ==> reg'[id] == reg[id])
    {
      EnrolledAt(reg, e, aliases, id);
    }
    hide Represents, At, Added, BaseName, RepoLess, KindIs, AliasIs, ObjectIs, Enrolled;
  }

  lemma GoodAdded(reg: Registry, e: Entry, aliases: set<string>)
    requires GoodRegistry(reg) && Joins(reg, e)
    ensures GoodRegistry(Enrolled(reg, e, aliases))
  {
    hide BaseName;
  }

  lemma AddRepresents(ix: Index, reg: Registry, e: Entry, aliases: set<string>)
    requires Represents(ix, reg) && Joins(reg, e)
    ensures Represents(Added(ix, e, aliases), Enrolled(reg, e, aliases))
  {
    var out, reg' := Added(ix, e, aliases), Enrolled(reg, e, aliases);
    NoEmpties(ix, reg);
    AddedNoEmpty(ix, e, aliases);
    AddedNoEmptyDoc(ix, e, aliases);
    GoodAdded(reg, e, aliases);
    hide *;
    forall k, id ensures PointOk(out, reg', k, id) {
      AddPoint(ix, reg, e, aliases, k, id);
      AddDoc(ix, reg, e, aliases, k, id);
      PointFrom(out, reg', k, id);
    }
    RepresentsFrom(out, reg');
  }

  lemma PointFrom(ix: Index, reg: Registry, k: string, id: string)
    requires ObjectIs(ix, reg, id) && KindIs(ix, reg, k, id) && AliasIs(ix, reg, k, id)
             && DocIs(reg, k, id, At(ix.docNames, k, id))
    ensures PointOk(ix, reg, k, id)
  {
  }

  lemma RepresentsFrom(ix: Index, reg: Registry)
    requires GoodRegistry(reg) && NoEmptyAlias(ix) && NoEmptyDoc(ix) && forall k, id :: PointOk(ix, reg, k, id)
    ensures Represents(ix, reg)
  {
    hide GoodRegistry, NoEmptyAlias, NoEmptyDoc, PointOk;
  }

  lemma AddedNoEmptyDoc(ix: Index, e: Entry, aliases: set<string>)
    requires NoEmptyDoc(ix)
    ensures NoEmptyDoc(Added(ix, e, aliases))
  {
    hide RepoLess, BaseName;
    var out := Added(ix, e, aliases);
    assert BaseName(e.fullId) in out.docNames[e.doc];
  }

  // ------------------------------------------------------------------ clearing

  function Others(reg: Registry, doc: string): Registry {
    map id | id in reg && reg[id].entry.doc != doc :: reg[id]
  }

  lemma RepresentsIsCoherent(ix: Index, reg: Registry)
    requires Represents(ix, reg)
    ensures Coherent(ix)
  {
    hide Represents, BaseName, RepoLess, At;
    forall k, id ensures KindOk(ix, k, id) && AliasOk(ix, k, id) && DocOk(ix, k, id) {
      RepresentsAt(ix, reg, k, id);
      if At(ix.docNames, k, id).Some? { RepresentsAt(ix, reg, k, At(ix.docNames, k, id).value.fullId); }
    }
    forall id | id in ix.objects ensures ObjectOk(ix, id) {
      RepresentsAt(ix, reg, ix.objects[id].kind, id);
      RepresentsAt(ix, reg, RepoLess(id), id);
    }
    assert NoEmptyAlias(ix) by { NoEmpties(ix, reg); }
    hide KindOk, AliasOk, DocOk, ObjectOk, NoEmptyAlias;
    CoherentFrom(ix);
  }

  lemma NoEmpties(ix: Index, reg: Registry)
    requires Represents(ix, reg)
    ensures NoEmptyAlias(ix) && NoEmptyDoc(ix) && GoodRegistry(reg)
  {
    hide PointOk, GoodRegistry;
  }

  /** The bucket of a document lists exactly its objects. */
  lemma BucketIds(ix: Index, reg: Registry, doc: string, id: string)
    requires Represents(ix, reg) && doc in ix.docNames
    ensures id in Ids(ix.docNames[doc].Values) <==> id in reg && reg[id].entry.doc == doc
  {
    RepresentsAt(ix, reg, doc, BaseName(id));
    RepresentsAt(ix, reg, doc, id);
    NoEmpties(ix, reg);
    hide Represents, RepoLess;
    var es := ix.docNames[doc].Values;
    if id in reg && reg[id].entry.doc == doc {
      var x := At(ix.docNames, doc, BaseName(id));
      assert x.Some? && x.value.fullId in reg && BaseName(x.value.fullId) == BaseName(id);
      assert x.value in es && x.value.fullId == id;
    }
    if id in Ids(es) {
      var e :| e in es && e.fullId == id;
      var b :| b in ix.docNames[doc] && ix.docNames[doc][b] == e;
      RepresentsAt(ix, reg, doc, b);
      assert At(ix.docNames, doc, b) == Some(e);
    }
  }

  lemma UnlistedDoc(ix: Index, reg: Registry, doc: string)
    requires Represents(ix, reg) && doc !in ix.docNames
    ensures Others(reg, doc) == reg
  {
    forall id | id in reg ensures reg[id].entry.doc != doc { RepresentsAt(ix, reg, doc, BaseName(id)); }
  }

  lemma BucketIsNotEmpty(ix: Index, doc: string)
    requires NoEmptyDoc(ix) && doc in ix.docNames
    ensures ix.docNames[doc].Values != {}
  {
    var b :| b in ix.docNames[doc];
    assert ix.docNames[doc][b] in ix.docNames[doc].Values;
  }

  lemma ClearPoint(ix: Index, reg: Registry, doc: string, k: string, id: string)
    requires Represents(ix, reg) && Coherent(ix) && doc in ix.docNames && ix.docNames[doc].Values != {}
    ensures ObjectIs(Cleared(ix, doc), Others(reg, doc), id)
    ensures KindIs(Cleared(ix, doc), Others(reg, doc), k, id)
    ensures AliasIs(Cleared(ix, doc), Others(reg, doc), k, id)
  {
    RepresentsAt(ix, reg, k, id);
    ClearedAt(ix, doc, k, id);
    BucketIds(ix, reg, doc, id);
    hide Represents, Coherent, At, Cleared, BaseName, RepoLess, Ids, DocIs;
  }

  lemma ClearDocPoint(ix: Index, reg: Registry, doc: string, d: string, b: string)
    requires Represents(ix, reg) && Coherent(ix) && doc in ix.docNames && ix.docNames[doc].Values != {}
    ensures DocIs(Others(reg, doc), d, b, At(Cleared(ix, doc).docNames, d, b))
  {
    RepresentsAt(ix, reg, d, b);
    ClearedAt(ix, doc, d, b);
    hide Represents, Coherent, At, Cleared, BaseName, RepoLess, Ids, ObjectIs, KindIs, AliasIs;
  }

  lemma GoodOthers(reg: Registry, doc: string)
    requires GoodRegistry(reg)
    ensures GoodRegistry(Others(reg, doc))
  {
    hide BaseName;
  }

  lemma ClearedNoEmptyDoc(ix: Index, doc: string)
    requires NoEmptyDoc(ix)
    ensures NoEmptyDoc(Cleared(ix, doc))
  {
    hide KindsWithout, AliasesWithout;
  }

  /** Clearing a document leaves exactly the index of the other documents. */
  lemma ClearRepresents(ix: Index, reg: Registry, doc: string)
    requires Represents(ix, reg)
    ensures Represents(Cleared(ix, doc), Others(reg, doc))
  {
    var out, reg' := Cleared(ix, doc), Others(reg, doc);
    RepresentsIsCoherent(ix, reg);
    NoEmpties(ix, reg);
    ClearedNoEmpty(ix, doc);
    ClearedNoEmptyDoc(ix, doc);
    GoodOthers(reg, doc);
    if doc !in ix.docNames {
      UnlistedDoc(ix, reg, doc);
    } else {
      BucketIsNotEmpty(ix, doc);
      hide *;
      forall k, id ensures PointOk(out, reg', k, id) {
        ClearPoint(ix, reg, doc, k, id);
        ClearDocPoint(ix, reg, doc, k, id);
        PointFrom(out, reg', k, id);
      }
      RepresentsFrom(out, reg');
    }
  }

  // ------------------------------------------------------------------- merging

  ghost predicate Apart(r: Registry, s: Registry) {
    forall i, j :: i in r && j in s ==> i != j && r[i].entry.doc != s[j].entry.doc
  }

  function Both(r: Registry, s: Registry): Registry {
    r + s
  }

  lemma BothAt(r: Registry, s: Registry, id: string)
    ensures id in Both(r, s) <==> id in r || id in s
    ensures id in Both(r, s) ==> Both(r, s)[id] == if id in s then s[id] else r[id]
  {
  }

  lemma MergedObjectAt(a: Index, b: Index, id: string)
    ensures id in Merged(a, b).objects <==> id in a.objects || id in b.objects
    ensures id in Merged(a, b).objects ==>
              Merged(a, b).objects[id] == if id in b.objects then b.objects[id] else a.objects[id]
  {
  }

  lemma MergePoint(a: Index, r: Registry, b: Index, s: Registry, k: string, id: string)
    requires Represents(a, r) && Represents(b, s) && Apart(r, s)
    ensures ObjectIs(Merged(a, b), Both(r, s), id) && KindIs(Merged(a, b), Both(r, s), k, id)
            && AliasIs(Merged(a, b), Both(r, s), k, id)
  {
    RepresentsAt(a, r, k, id);
    RepresentsAt(b, s, k, id);
    MergedAll(a, b, k, id);
    MergedObjectAt(a, b, id);
    BothAt(r, s, id);
    assert !(id in r && id in s);
    hide Represents, At, Merged, BaseName, RepoLess, DocIs, Both, Apart;
  }

  lemma MergeDocPoint(a: Index, r: Registry, b: Index, s: Registry, d: string, n: string)
    requires Represents(a, r) && Represents(b, s) && Apart(r, s)
    ensures DocIs(Both(r, s), d, n, At(Merged(a, b).docNames, d, n))
  {
    RepresentsAt(a, r, d, n);
    RepresentsAt(b, s, d, n);
    MergedAll(a, b, d, n);
    forall id ensures id in Both(r, s) <==> id in r || id in s
              ensures id in Both(r, s) ==> Both(r, s)[id] == if id in s then s[id] else r[id]
    {
      BothAt(r, s, id);
    }
    hide Represents, At, Merged, BaseName, RepoLess, ObjectIs, KindIs, AliasIs, Both;
  }

  lemma GoodMerged(r: Registry, s: Registry)
    requires GoodRegistry(r) && GoodRegistry(s) && Apart(r, s)
    ensures GoodRegistry(Both(r, s))
  {
    hide BaseName;
  }

  /** Merging the indexes of disjoint documents gives the index of all of them. */
  lemma MergeRepresents(a: Index, r: Registry, b: Index, s: Registry)
    requires Represents(a, r) && Represents(b, s) && Apart(r, s)
    ensures Represents(Merged(a, b), Both(r, s))
  {
    var out, reg := Merged(a, b), Both(r, s);
    NoEmpties(a, r);
    NoEmpties(b, s);
    MergedNoEmpty(a, b);
    MergedNoEmptyDoc(a, b);
    GoodMerged(r, s);
    hide *;
    forall k, id ensures PointOk(out, reg, k, id) {
      MergePoint(a, r, b, s, k, id);
      MergeDocPoint(a, r, b, s, k, id);
      PointFrom(out, reg, k, id);
    }
    RepresentsFrom(out, reg);
  }

  lemma MergedNoEmptyDoc(a: Index, b: Index)
    requires NoEmptyDoc(a) && NoEmptyDoc(b)
    ensures NoEmptyDoc(Merged(a, b))
  {
    var out := Merged(a, b);
    forall k | k in out.docNames ensures out.docNames[k] != map[] {
      if k in b.docNames {
        var id :| id in b.docNames[k];
        assert id in out.docNames[k];
      } else {
        assert out.docNames[k] == a.docNames[k];
      }
    }
  }

  // ------------------------------------------------------------ one per registry

  ghost predicate SameBuckets(m: Buckets, n: Buckets) {
    forall k, id :: At(m, k, id) == At(n, k, id)
  }

  lemma SameIfNoEmpty(m: Buckets, n: Buckets)
    requires SameBuckets(m, n) && (forall k :: k in m ==> m[k] != map[]) && (forall k :: k in n ==> n[k] != map[])
    ensures m == n
  {
    forall k ensures k in m <==> k in n {
      if k in m { var id :| id in m[k]; assert At(n, k, id).Some?; }
      if k in n { var id :| id in n[k]; assert At(m, k, id).Some?; }
    }
    forall k | k in m ensures m[k] == n[k] {
      forall id ensures id in m[k] <==> id in n[k] { assert At(m, k, id) == At(n, k, id); }
      forall id | id in m[k] ensures m[k][id] == n[k][id] { assert At(m, k, id) == At(n, k, id); }
    }
  }

  lemma DocIsUnique(reg: Registry, d: string, b: string, x: Option<Entry>, y: Option<Entry>)
    requires GoodRegistry(reg) && DocIs(reg, d, b, x) && DocIs(reg, d, b, y)
    ensures x == y
  {
    hide BaseName;
  }

  /** A registry has one index, up to empty kind buckets. */
  lemma OneIndexPerRegistry(a: Index, b: Index, reg: Registry)
    requires Represents(a, reg) && Represents(b, reg)
    ensures a.objects == b.objects && a.docNames == b.docNames && a.altNames == b.altNames
            && SameBuckets(a.byKind, b.byKind)
  {
    NoEmpties(a, reg);
    NoEmpties(b, reg);
    hide Represents, BaseName, RepoLess, At, GoodRegistry;
    forall k, id
      ensures At(a.byKind, k, id) == At(b.byKind, k, id)
      ensures At(a.altNames, k, id) == At(b.altNames, k, id)
      ensures At(a.docNames, k, id) == At(b.docNames, k, id)
    {
      RepresentsAt(a, reg, k, id);
      RepresentsAt(b, reg, k, id);
      DocIsUnique(reg, k, id, At(a.docNames, k, id), At(b.docNames, k, id));
    }
    SameIfNoEmpty(a.docNames, b.docNames);
    SameIfNoEmpty(a.altNames, b.altNames);
    forall id ensures (id in a.objects <==> id in b.objects) && (id in a.objects ==> a.objects[id] == b.objects[id]) {
      RepresentsAt(a, reg, "", id);
      RepresentsAt(b, reg, "", id);
    }
  }

  // ----------------------------------------------------------- fresh and re-added

  function Registering(ix: Index, rs: seq<Registered>): Index {
    if rs == [] then ix
    else
      var r := rs[|rs| - 1];
      Do(Registering(ix, rs[..|rs| - 1]), Add(r.entry, r.aliases))
  }

  function Registrations(reg: Registry, rs: seq<Registered>): Registry {
    if rs == [] then reg
    else
      var r := rs[|rs| - 1];
      Enrolled(Registrations(reg, rs[..|rs| - 1]), r.entry, r.aliases)
  }

  ghost predicate AllJoin(reg: Registry, rs: seq<Registered>) {
    forall i :: 0 <= i < |rs| ==> Joins(Registrations(reg, rs[..i]), rs[i].entry)
  }

  lemma {:induction false} RegisteringRepresents(ix: Index, reg: Registry, rs: seq<Registered>)
    requires Represents(ix, reg) && AllJoin(reg, rs)
    ensures Represents(Registering(ix, rs), Registrations(reg, rs))
  {
    hide Represents, Joins, Added;
    if rs != [] {
      var front, r := rs[..|rs| - 1], rs[|rs| - 1];
      assert forall i :: 0 <= i < |front| ==> front[..i] == rs[..i];
      RegisteringRepresents(ix, reg, front);
      var before, known := Registering(ix, front), Registrations(reg, front);
      assert Joins(known, r.entry);
      RepresentsAt(before, known, "", r.entry.fullId);
      assert r.entry.fullId !in known by { JoinsIsNew(known, r.entry); }
      AddRepresents(before, known, r.entry, r.aliases);
    }
  }

  lemma JoinsIsNew(reg: Registry, e: Entry)
    requires Joins(reg, e)
    ensures e.fullId !in reg
  {
    hide BaseName;
  }

  lemma EmptyRepresents()
    ensures Represents(EMPTY, map[])
  {
  }

  /** Clearing a document and adding its objects again, in any order, gives the
      same four dictionaries as building them afresh in any order. */
  lemma ReAddedIsFresh(ix: Index, reg: Registry, doc: string, again: seq<Registered>, all: seq<Registered>)
    requires Represents(ix, reg)
    requires AllJoin(Others(reg, doc), again) && Registrations(Others(reg, doc), again) == reg
    requires AllJoin(map[], all) && Registrations(map[], all) == reg
    ensures var (a, b) := (Registering(Cleared(ix, doc), again), Registering(EMPTY, all));
            a.objects == b.objects && a.docNames == b.docNames && a.altNames == b.altNames
                && SameBuckets(a.byKind, b.byKind)
  {
    hide Represents, AllJoin, Cleared, SameBuckets, Others, Registrations, Registering;
    ClearRepresents(ix, reg, doc);
    RegisteringRepresents(Cleared(ix, doc), Others(reg, doc), again);
    EmptyRepresents();
    RegisteringRepresents(EMPTY, map[], all);
    OneIndexPerRegistry(Registering(Cleared(ix, doc), again), Registering(EMPTY, all), reg);
  }
}
