/** What the four dictionaries of the documentation domain keep together. */
module BzlCoherence {
  import opened Text
  import opened BzlIndex

  function At(m: Buckets, k: string, id: string): Option<Entry> {
    if k in m && id in m[k] then Some(m[k][id]) else None
  }

  /** An entry that the object table holds. */
  predicate Live(ix: Index, e: Entry) {
    e.fullId in ix.objects && ix.objects[e.fullId] == e
  }

  predicate ObjectOk(ix: Index, id: string)
    requires id in ix.objects
  {
    && ix.objects[id].fullId == id
    && At(ix.byKind, ix.objects[id].kind, id) == Some(ix.objects[id])
    && At(ix.altNames, RepoLess(id), id) == Some(ix.objects[id])
  }

  predicate KindOk(ix: Index, k: string, id: string) {
    At(ix.byKind, k, id).Some? ==>
        id in ix.objects && At(ix.byKind, k, id) == Some(ix.objects[id]) && ix.objects[id].kind == k
  }

  predicate AliasOk(ix: Index, a: string, id: string) {
    At(ix.altNames, a, id).Some? ==> id in ix.objects && At(ix.altNames, a, id) == Some(ix.objects[id])
  }

  predicate DocOk(ix: Index, d: string, b: string) {
    At(ix.docNames, d, b).Some? ==>
      var e := At(ix.docNames, d, b).value;
      Live(ix, e) && e.doc == d && BaseName(e.fullId) == b
  }

  ghost predicate NoEmptyAlias(ix: Index) {
    forall a :: a in ix.altNames ==> ix.altNames[a] != map[]
  }

  /** Each object is in its own kind's bucket and no other, keeps its alias
      without repository, and every alias and document entry is live. */
  ghost predicate Coherent(ix: Index) {
    && (forall id :: id in ix.objects ==> ObjectOk(ix, id))
    && (forall k, id :: KindOk(ix, k, id))
    && (forall a, id :: AliasOk(ix, a, id))
    && (forall d, b :: DocOk(ix, d, b))
    && NoEmptyAlias(ix)
  }

  /** All that coherence says about one pair of keys. */
  lemma CoherentAt(ix: Index, k: string, id: string)
    requires Coherent(ix)
    ensures KindOk(ix, k, id) && AliasOk(ix, k, id) && DocOk(ix, k, id)
    ensures id in ix.objects ==> ObjectOk(ix, id)
  {
    hide KindOk, AliasOk, DocOk, ObjectOk;
  }

  lemma PutAt(m: Buckets, keys: set<string>, id: string, e: Entry, k: string, i: string)
    ensures At(Put(m, keys, id, e), k, i) == if k in keys && i == id then Some(e) else At(m, k, i)
  {
  }

  lemma AddedAt(ix: Index, e: Entry, aliases: set<string>, k: string, id: string)
    ensures var out := Added(ix, e, aliases);
            && At(out.byKind, k, id) == (if k == e.kind && id == e.fullId then Some(e) else At(ix.byKind, k, id))
            && At(out.docNames, k, id)
                 == (if k == e.doc && id == BaseName(e.fullId) then Some(e) else At(ix.docNames, k, id))
            && At(out.altNames, k, id)
                 == (if (k in aliases || k == RepoLess(e.fullId)) && id == e.fullId then Some(e)
                     else At(ix.altNames, k, id))
  {
    hide Put, At, BaseName, RepoLess;
    PutAt(ix.byKind, {e.kind}, e.fullId, e, k, id);
    PutAt(ix.docNames, {e.doc}, BaseName(e.fullId), e, k, id);
    PutAt(ix.altNames, aliases + {RepoLess(e.fullId)}, e.fullId, e, k, id);
  }

  lemma AddedNoEmpty(ix: Index, e: Entry, aliases: set<string>)
    requires NoEmptyAlias(ix)
    ensures NoEmptyAlias(Added(ix, e, aliases))
  {
    hide RepoLess, BaseName;
    var out := Added(ix, e, aliases);
    forall a | a in out.altNames ensures out.altNames[a] != map[] {
      if a in aliases + {RepoLess(e.fullId)} { assert e.fullId in out.altNames[a]; }
    }
  }

  lemma AddedKind(ix: Index, e: Entry, aliases: set<string>, k: string, id: string)
    requires Coherent(ix) && e.fullId !in ix.objects
    ensures KindOk(Added(ix, e, aliases), k, id)
  {
    CoherentAt(ix, k, id);
    AddedAt(ix, e, aliases, k, id);
    assert KindOk(ix, k, id);
    assert Added(ix, e, aliases).objects == ix.objects[e.fullId := e];
    hide RepoLess, BaseName, At, Added, Coherent, DocOk, ObjectOk, AliasOk;
  }

  lemma AddedObjectAt(ix: Index, e: Entry, aliases: set<string>, id: string)
    ensures var out := Added(ix, e, aliases);
            if id == e.fullId then id in out.objects && out.objects[id] == e
            else (id in out.objects <==> id in ix.objects) && (id in ix.objects ==> out.objects[id] == ix.objects[id])
  {
  }

  lemma AddedAlias(ix: Index, e: Entry, aliases: set<string>, k: string, id: string)
    requires Coherent(ix) && e.fullId !in ix.objects
    ensures AliasOk(Added(ix, e, aliases), k, id)
  {
    assert AliasOk(ix, k, id) by { CoherentAt(ix, k, id); }
    AddedAt(ix, e, aliases, k, id);
    AddedObjectAt(ix, e, aliases, id);
    hide RepoLess, BaseName, At, Added, Coherent;
  }

  lemma AddedDoc(ix: Index, e: Entry, aliases: set<string>, k: string, b: string)
    requires Coherent(ix) && e.fullId !in ix.objects
    ensures DocOk(Added(ix, e, aliases), k, b)
  {
    assert Added(ix, e, aliases).objects == ix.objects[e.fullId := e];
    AddedAt(ix, e, aliases, k, b);
    CoherentAt(ix, k, b);
    hide RepoLess, BaseName, At, Added, Coherent, KindOk, AliasOk, ObjectOk;
  }

  lemma AddedObject(ix: Index, e: Entry, aliases: set<string>, id: string)
    requires Coherent(ix) && e.fullId !in ix.objects && id in Added(ix, e, aliases).objects
    ensures ObjectOk(Added(ix, e, aliases), id)
  {
    var out := Added(ix, e, aliases);
    assert out.objects == ix.objects[e.fullId := e];
    CoherentAt(ix, "", id);
    AddedAt(ix, e, aliases, out.objects[id].kind, id);
    AddedAt(ix, e, aliases, RepoLess(id), id);
    hide RepoLess, BaseName, At, Added, Coherent;
  }

  lemma AddKeepsCoherent(ix: Index, e: Entry, aliases: set<string>)
    requires Coherent(ix) && e.fullId !in ix.objects
    ensures Coherent(Added(ix, e, aliases))
  {
    var out := Added(ix, e, aliases);
    AddedNoEmpty(ix, e, aliases) by { CoherentAlias(ix); }
    hide *;
    forall k, id ensures KindOk(out, k, id) && AliasOk(out, k, id) && DocOk(out, k, id) {
      AddedKind(ix, e, aliases, k, id);
      AddedAlias(ix, e, aliases, k, id);
      AddedDoc(ix, e, aliases, k, id);
    }
    forall id | id in out.objects ensures ObjectOk(out, id) { AddedObject(ix, e, aliases, id); }
    CoherentFrom(out);
  }

  lemma CoherentAlias(ix: Index)
    requires Coherent(ix)
    ensures NoEmptyAlias(ix)
  {
    hide NoEmptyAlias;
  }

  lemma CoherentFrom(ix: Index)
    requires (forall id :: id in ix.objects ==> ObjectOk(ix, id)) && NoEmptyAlias(ix)
    requires forall k, id :: KindOk(ix, k, id) && AliasOk(ix, k, id) && DocOk(ix, k, id)
    ensures Coherent(ix)
  {
    hide KindOk, AliasOk, DocOk, ObjectOk, NoEmptyAlias;
    forall k, id ensures KindOk(ix, k, id) && AliasOk(ix, k, id) && DocOk(ix, k, id) {}
  }

  /** What is left after taking entries out, bucket by bucket. */
  lemma WithoutAt(ix: Index, es: set<Entry>, k: string, id: string)
    requires es != {}
    ensures id in Without(ix, es).objects <==> id in ix.objects && id !in Ids(es)
    ensures At(Without(ix, es).byKind, k, id) == if id in IdsOfKind(es, k) then None else At(ix.byKind, k, id)
    ensures At(Without(ix, es).altNames, k, id) == if id in Ids(es) then None else At(ix.altNames, k, id)
  {
    hide Ids, IdsOfKind;
    if k in ix.altNames && id in ix.altNames[k] && id !in Ids(es) {
      assert id in ix.altNames[k] - Ids(es);
    }
  }

  /** The entries of a document's bucket are live objects of that document. */
  lemma GoneAreOfDoc(ix: Index, doc: string)
    requires Coherent(ix) && doc in ix.docNames
    ensures forall e :: e in ix.docNames[doc].Values ==> Live(ix, e) && e.doc == doc
    ensures forall id :: id in Ids(ix.docNames[doc].Values) ==>
              id in ix.objects && ix.objects[id] in ix.docNames[doc].Values && ix.objects[id].doc == doc
  {
    hide RepoLess, BaseName, Coherent;
    forall e | e in ix.docNames[doc].Values ensures Live(ix, e) && e.doc == doc {
      var b :| b in ix.docNames[doc] && ix.docNames[doc][b] == e;
      CoherentAt(ix, doc, b);
      assert At(ix.docNames, doc, b) == Some(e);
    }
  }

  /** Taking out an object of the bucket takes it out of its kind's bucket. */
  lemma GoneFromKind(ix: Index, doc: string, k: string, id: string)
    requires Coherent(ix) && doc in ix.docNames
    ensures id in IdsOfKind(ix.docNames[doc].Values, k) ==> id in Ids(ix.docNames[doc].Values)
    ensures id in Ids(ix.docNames[doc].Values) && At(ix.byKind, k, id).Some? ==>
              id in IdsOfKind(ix.docNames[doc].Values, k)
  {
    var es := ix.docNames[doc].Values;
    GoneAreOfDoc(ix, doc);
    CoherentAt(ix, k, id);
    hide Coherent, BaseName, RepoLess;
    if id in Ids(es) && At(ix.byKind, k, id).Some? {
      var e := ix.objects[id];
      assert e in es && e.kind == k && e.fullId == id;
    }
  }

  lemma ClearedAt(ix: Index, doc: string, k: string, id: string)
    requires Coherent(ix) && doc in ix.docNames && ix.docNames[doc].Values != {}
    ensures var (out, gone) := (Cleared(ix, doc), Ids(ix.docNames[doc].Values));
            && (id in out.objects <==> id in ix.objects && id !in gone)
            && (id in out.objects ==> out.objects[id] == ix.objects[id])
            && At(out.byKind, k, id) == (if id in gone then None else At(ix.byKind, k, id))
            && At(out.altNames, k, id) == (if id in gone then None else At(ix.altNames, k, id))
            && At(out.docNames, k, id) == (if k == doc then None else At(ix.docNames, k, id))
  {
    var es := ix.docNames[doc].Values;
    WithoutAt(ix, es, k, id);
    GoneFromKind(ix, doc, k, id);
    hide Ids, IdsOfKind, KindsWithout, AliasesWithout, Coherent, BaseName, RepoLess;
  }

  lemma ClearedNoEmpty(ix: Index, doc: string)
    requires NoEmptyAlias(ix)
    ensures NoEmptyAlias(Cleared(ix, doc))
  {
    hide KindsWithout;
  }

  lemma ClearedPoint(ix: Index, doc: string, k: string, id: string)
    requires Coherent(ix) && doc in ix.docNames
    ensures KindOk(Cleared(ix, doc), k, id) && AliasOk(Cleared(ix, doc), k, id) && DocOk(Cleared(ix, doc), k, id)
  {
    GoneAreOfDoc(ix, doc);
    CoherentAt(ix, k, id);
    hide RepoLess, BaseName, At, Cleared, Coherent, Ids, ObjectOk;
    if ix.docNames[doc].Values == {} {
      EmptyDocAt(ix, doc, k, id);
    } else {
      ClearedAt(ix, doc, k, id);
      if At(ix.docNames, k, id).Some? { ClearedAt(ix, doc, k, At(ix.docNames, k, id).value.fullId); }
    }
  }

  lemma ClearedObject(ix: Index, doc: string, id: string)
    requires Coherent(ix) && doc in ix.docNames && id in Cleared(ix, doc).objects
    ensures ObjectOk(Cleared(ix, doc), id)
  {
    CoherentAt(ix, "", id);
    hide RepoLess, BaseName, At, Cleared, Coherent, Ids, KindOk, AliasOk, DocOk;
    if ix.docNames[doc].Values == {} {
      EmptyDocAt(ix, doc, "", id);
    } else {
      ClearedAt(ix, doc, Cleared(ix, doc).objects[id].kind, id);
      ClearedAt(ix, doc, RepoLess(id), id);
    }
  }

  lemma ClearKeepsCoherent(ix: Index, doc: string)
    requires Coherent(ix)
    ensures Coherent(Cleared(ix, doc))
  {
    var out := Cleared(ix, doc);
    CoherentAlias(ix);
    ClearedNoEmpty(ix, doc);
    if doc in ix.docNames {
      hide *;
      forall k, id ensures KindOk(out, k, id) && AliasOk(out, k, id) && DocOk(out, k, id) {
        ClearedPoint(ix, doc, k, id);
      }
      forall id | id in out.objects ensures ObjectOk(out, id) { ClearedObject(ix, doc, id); }
      CoherentFrom(out);
    }
  }

  lemma HasValue(m: Bucket, id: string)
    ensures id in m ==> m.Values != {}
  {
    if id in m { assert m[id] in m.Values; }
  }

  lemma EmptyDocAt(ix: Index, doc: string, k: string, id: string)
    requires doc in ix.docNames && ix.docNames[doc].Values == {}
    ensures At(Cleared(ix, doc).docNames, k, id) == At(ix.docNames, k, id)
    ensures Cleared(ix, doc).byKind == ix.byKind && Cleared(ix, doc).altNames == ix.altNames
            && Cleared(ix, doc).objects == ix.objects
  {
    HasValue(ix.docNames[doc], id);
  }

  lemma MergedAt(m: Buckets, other: Buckets, k: string, id: string)
    ensures At(MergedBuckets(m, other), k, id) == if At(other, k, id).Some? then At(other, k, id) else At(m, k, id)
  {
  }

  /** Two indexes that agree on the objects they share. */
  ghost predicate Agree(a: Index, b: Index) {
    forall id :: id in a.objects && id in b.objects ==> a.objects[id] == b.objects[id]
  }

  lemma MergedNoEmpty(a: Index, b: Index)
    requires NoEmptyAlias(a) && NoEmptyAlias(b)
    ensures NoEmptyAlias(Merged(a, b))
  {
    var out := Merged(a, b);
    forall k | k in out.altNames ensures out.altNames[k] != map[] {
      if k in b.altNames {
        var id :| id in b.altNames[k];
        assert id in out.altNames[k];
      } else {
        assert out.altNames[k] == a.altNames[k];
      }
    }
  }

  lemma MergedPoint(a: Index, b: Index, k: string, id: string)
    requires Coherent(a) && Coherent(b) && Agree(a, b)
    ensures KindOk(Merged(a, b), k, id) && AliasOk(Merged(a, b), k, id) && DocOk(Merged(a, b), k, id)
  {
    assert Merged(a, b).objects == a.objects + b.objects;
    MergedAll(a, b, k, id);
    CoherentAt(a, k, id);
    CoherentAt(b, k, id);
    hide RepoLess, BaseName, At, Merged, Coherent;
  }

  lemma MergedObject(a: Index, b: Index, id: string)
    requires Coherent(a) && Coherent(b) && Agree(a, b) && id in Merged(a, b).objects
    ensures ObjectOk(Merged(a, b), id)
  {
    var out := Merged(a, b);
    assert out.objects == a.objects + b.objects;
    var kind := out.objects[id].kind;
    MergedAll(a, b, kind, id);
    MergedAll(a, b, RepoLess(id), id);
    CoherentAt(a, kind, id);
    CoherentAt(b, kind, id);
    CoherentAt(a, RepoLess(id), id);
    CoherentAt(b, RepoLess(id), id);
    hide RepoLess, BaseName, At, Merged, Coherent, DocOk;
  }

  lemma MergeKeepsCoherent(a: Index, b: Index)
    requires Coherent(a) && Coherent(b) && Agree(a, b)
    ensures Coherent(Merged(a, b))
  {
    var out := Merged(a, b);
    CoherentAlias(a);
    CoherentAlias(b);
    MergedNoEmpty(a, b);
    hide *;
    forall k, id ensures KindOk(out, k, id) && AliasOk(out, k, id) && DocOk(out, k, id) { MergedPoint(a, b, k, id); }
    forall id | id in out.objects ensures ObjectOk(out, id) { MergedObject(a, b, id); }
    CoherentFrom(out);
  }

  lemma MergedAll(a: Index, b: Index, k: string, id: string)
    ensures At(Merged(a, b).byKind, k, id) == if At(b.byKind, k, id).Some? then At(b.byKind, k, id)
            else At(a.byKind, k, id)
    ensures At(Merged(a, b).altNames, k, id) == if At(b.altNames, k, id).Some? then At(b.altNames, k, id)
            else At(a.altNames, k, id)
    ensures At(Merged(a, b).docNames, k, id) == if At(b.docNames, k, id).Some? then At(b.docNames, k, id)
            else At(a.docNames, k, id)
  {
    MergedAt(a.byKind, b.byKind, k, id);
    MergedAt(a.altNames, b.altNames, k, id);
    MergedAt(a.docNames, b.docNames, k, id);
  }

  // ------------------------------------------------------------------- runs

  datatype Operation = Add(entry: Entry, aliases: set<string>) | Clear(doc: string) | Merge(other: Index)

  /** An operation's effect; adding a known id changes nothing or raises. */
  function Do(ix: Index, op: Operation): Index {
    match op
    case Add(e, aliases) => if e.fullId in ix.objects then ix else Added(ix, e, aliases)
    case Clear(doc) => Cleared(ix, doc)
    case Merge(other) => Merged(ix, other)
  }

  function Run(ix: Index, ops: seq<Operation>): Index {
    if ops == [] then ix else Do(Run(ix, ops[..|ops| - 1]), ops[|ops| - 1])
  }

  ghost predicate Legal(ix: Index, op: Operation) {
    op.Merge? ==> Coherent(op.other) && Agree(ix, op.other)
  }

  ghost predicate AllLegal(ix: Index, ops: seq<Operation>) {
    forall i :: 0 <= i < |ops| ==> Legal(Run(ix, ops[..i]), ops[i])
  }

  /** Every sequence of adds, clears and merges keeps the dictionaries coherent. */
  lemma {:induction false} RunsAreCoherent(ops: seq<Operation>)
    requires AllLegal(EMPTY, ops)
    ensures Coherent(Run(EMPTY, ops))
  {
    hide Coherent, Added, Cleared, Merged, Agree;
    if ops == [] {
      EmptyIsCoherent();
    } else {
      var front, op := ops[..|ops| - 1], ops[|ops| - 1];
      assert forall i :: 0 <= i < |front| ==> front[..i] == ops[..i];
      RunsAreCoherent(front);
      var ix := Run(EMPTY, front);
      match op {
        case Add(e, aliases) => if e.fullId !in ix.objects { AddKeepsCoherent(ix, e, aliases); }
        case Clear(doc) => ClearKeepsCoherent(ix, doc);
        case Merge(other) => assert Legal(ix, op); MergeKeepsCoherent(ix, other);
      }
    }
  }

  lemma EmptyIsCoherent()
    ensures Coherent(EMPTY)
  {
  }

  // ------------------------------------------------------------------ clearing

  /** The document's entry under the object's base name is the object itself. */
  predicate Listed(ix: Index, id: string)
    requires id in ix.objects
  {
    At(ix.docNames, ix.objects[id].doc, BaseName(id)) == Some(ix.objects[id])
  }

  /** Nothing of the document is left among the objects. */
  ghost predicate Gone(ix: Index, doc: string) {
    forall id :: id in ix.objects ==> ix.objects[id].doc != doc
  }

  lemma KeptByClear(ix: Index, doc: string, id: string)
    requires Coherent(ix) && id in ix.objects
    ensures id in Cleared(ix, doc).objects <==> ix.objects[id].doc != doc || !Listed(ix, id)
    ensures id in Cleared(ix, doc).objects ==> Cleared(ix, doc).objects[id] == ix.objects[id]
  {
    CoherentAt(ix, "", id);
    if doc in ix.docNames {
      HasValue(ix.docNames[doc], BaseName(id));
      hide Coherent, BaseName, RepoLess, Cleared, KindOk, AliasOk, DocOk;
      InBucket(ix, doc, id);
      GoneAreOfDoc(ix, doc);
      hide Ids;
      if ix.docNames[doc].Values == {} {
        EmptyDocAt(ix, doc, "", id);
      } else {
        ClearedAt(ix, doc, "", id);
      }
    }
  }

  /** An object is in its document's bucket exactly under its base name. */
  lemma InBucket(ix: Index, doc: string, id: string)
    requires Coherent(ix) && doc in ix.docNames && id in ix.objects && ix.objects[id].fullId == id
    ensures id in Ids(ix.docNames[doc].Values) <==> At(ix.docNames, doc, BaseName(id)) == Some(ix.objects[id])
  {
    hide Coherent, BaseName, RepoLess, KindOk, AliasOk, ObjectOk;
    GoneAreOfDoc(ix, doc);
    var es := ix.docNames[doc].Values;
    if At(ix.docNames, doc, BaseName(id)) == Some(ix.objects[id]) {
      assert ix.objects[id] in es;
    }
    if id in Ids(es) {
      var b :| b in ix.docNames[doc] && ix.docNames[doc][b] == ix.objects[id];
      CoherentAt(ix, doc, b);
    }
  }

  lemma ClearedIsSubset(ix: Index, doc: string, id: string)
    requires id in Cleared(ix, doc).objects
    ensures id in ix.objects
  {
    hide KindsWithout, AliasesWithout, Ids;
  }

  /** After any run, clearing a document removes all of its objects exactly when
      each of them is the document's entry under its own base name. */
  lemma ClearIsCompleteIff(ops: seq<Operation>, doc: string)
    requires AllLegal(EMPTY, ops)
    ensures Gone(Cleared(Run(EMPTY, ops), doc), doc) <==>
            forall id :: id in Run(EMPTY, ops).objects && Run(EMPTY, ops).objects[id].doc == doc ==>
                Listed(Run(EMPTY, ops), id)
  {
    RunsAreCoherent(ops);
    var ix := Run(EMPTY, ops);
    hide Run, Coherent, Cleared, Listed, AllLegal;
    var out := Cleared(ix, doc);
    forall id | id in ix.objects
      ensures id in out.objects <==> ix.objects[id].doc != doc || !Listed(ix, id)
      ensures id in out.objects ==> out.objects[id] == ix.objects[id]
    {
      KeptByClear(ix, doc, id);
    }
    forall id | id in out.objects ensures id in ix.objects { ClearedIsSubset(ix, doc, id); }
    if Gone(out, doc) {
      forall id | id in ix.objects && ix.objects[id].doc == doc ensures Listed(ix, id) {
        assert id !in out.objects;
      }
    }
  }

  /** No two objects of one document share a base name. */
  ghost predicate NoTwins(ix: Index) {
    forall i, j :: i in ix.objects && j in ix.objects ==> !Twins(ix.objects[i], ix.objects[j])
  }

  predicate Twins(e: Entry, f: Entry) {
    e.doc == f.doc && BaseName(e.fullId) == BaseName(f.fullId) && e.fullId != f.fullId
  }

  /** An operation that brings no object a twin. */
  ghost predicate ClashFree(ix: Index, op: Operation) {
    match op
    case Add(e, _) => e.fullId in ix.objects || forall id :: id in ix.objects ==> !Twins(e, ix.objects[id])
    case Clear(_) => true
    case Merge(other) =>
      (forall id :: id in other.objects ==> Listed(other, id))
      && forall i, j :: i in ix.objects && j in other.objects ==> !Twins(ix.objects[i], other.objects[j])
  }

  ghost predicate AllClashFree(ix: Index, ops: seq<Operation>) {
    forall i :: 0 <= i < |ops| ==> ClashFree(Run(ix, ops[..i]), ops[i])
  }

  ghost predicate AllListed(ix: Index) {
    forall id :: id in ix.objects ==> Listed(ix, id)
  }

  lemma AddListed(ix: Index, e: Entry, aliases: set<string>, id: string)
    requires Coherent(ix) && AllListed(ix) && e.fullId !in ix.objects && ClashFree(ix, Add(e, aliases))
    requires id in Added(ix, e, aliases).objects
    ensures Listed(Added(ix, e, aliases), id)
  {
    var out := Added(ix, e, aliases);
    assert out.objects == ix.objects[e.fullId := e];
    AddedAt(ix, e, aliases, out.objects[id].doc, BaseName(id));
    CoherentAt(ix, "", id);
    hide Added, BaseName, RepoLess, At, Coherent, KindOk, AliasOk, DocOk;
    if id != e.fullId { assert Listed(ix, id) && !Twins(e, ix.objects[id]); }
  }

  lemma ClearListed(ix: Index, doc: string, id: string)
    requires Coherent(ix) && AllListed(ix) && id in Cleared(ix, doc).objects
    ensures Listed(Cleared(ix, doc), id)
  {
    ClearedIsSubset(ix, doc, id);
    KeptByClear(ix, doc, id);
    assert Listed(ix, id);
    ClearedDocs(ix, doc, ix.objects[id].doc, BaseName(id));
    hide BaseName, Cleared, Coherent;
  }

  lemma ClearedDocs(ix: Index, doc: string, d: string, b: string)
    requires d != doc
    ensures At(Cleared(ix, doc).docNames, d, b) == At(ix.docNames, d, b)
  {
    hide KindsWithout, AliasesWithout, Ids, BaseName;
  }

  lemma MergeListed(ix: Index, other: Index, id: string)
    requires Coherent(ix) && Coherent(other) && Agree(ix, other) && AllListed(ix) && ClashFree(ix, Merge(other))
    requires id in Merged(ix, other).objects
    ensures Listed(Merged(ix, other), id)
  {
    var out := Merged(ix, other);
    assert out.objects == ix.objects + other.objects;
    var (d, b) := (out.objects[id].doc, BaseName(id));
    MergedAll(ix, other, d, b);
    CoherentAt(ix, "", id);
    CoherentAt(other, d, b);
    hide Merged, BaseName, RepoLess, Coherent, KindOk, AliasOk, At;
    if id in other.objects {
      assert Listed(other, id);
    } else {
      assert Listed(ix, id);
      EntryIsTwin(ix.objects[id], other);
    }
  }

  lemma EntryIsTwin(e: Entry, other: Index)
    requires Coherent(other) && e.fullId !in other.objects
    ensures At(other.docNames, e.doc, BaseName(e.fullId)).Some? ==>
              exists j :: j in other.objects && Twins(e, other.objects[j])
  {
    CoherentAt(other, e.doc, BaseName(e.fullId));
    hide Coherent, RepoLess, KindOk, AliasOk, BaseName;
    var found := At(other.docNames, e.doc, BaseName(e.fullId));
    if found.Some? { assert found.value.fullId in other.objects && Twins(e, other.objects[found.value.fullId]); }
  }

  /** Runs without twins keep every object listed, so that every clear is complete. */
  lemma {:induction false} ClashFreeIsListed(ops: seq<Operation>)
    requires AllLegal(EMPTY, ops) && AllClashFree(EMPTY, ops)
    ensures AllListed(Run(EMPTY, ops))
  {
    hide Listed, Coherent, Added, Cleared, Merged, Agree, ClashFree;
    if ops != [] {
      var front, op := ops[..|ops| - 1], ops[|ops| - 1];
      assert forall i :: 0 <= i < |front| ==> front[..i] == ops[..i];
      ClashFreeIsListed(front);
      RunsAreCoherent(front);
      var ix := Run(EMPTY, front);
      assert ClashFree(ix, op) && Legal(ix, op);
      forall id | id in Do(ix, op).objects ensures Listed(Do(ix, op), id) {
        match op {
          case Add(e, aliases) => if e.fullId !in ix.objects { AddListed(ix, e, aliases, id); }
          case Clear(doc) => ClearListed(ix, doc, id);
          case Merge(other) => MergeListed(ix, other, id);
        }
      }
    }
  }

  lemma TwoRun(a: Operation, b: Operation)
    ensures Run(EMPTY, [a]) == Do(EMPTY, a) && Run(EMPTY, [a, b]) == Do(Do(EMPTY, a), b)
  {
    hide Do;
    assert [a][..0] == [] && [a, b][..1] == [a];
  }

  /** Of two twins, clearing misses the one registered first. */
  lemma TwinIsMissed(e: Entry, f: Entry)
    requires Twins(e, f)
    ensures AllLegal(EMPTY, [Add(e, {}), Add(f, {})])
    ensures var ix := Run(EMPTY, [Add(e, {}), Add(f, {})]);
            e.fullId in Cleared(ix, e.doc).objects && Cleared(ix, e.doc).objects[e.fullId] == e
                && f.fullId !in Cleared(ix, e.doc).objects
  {
    TwoRun(Add(e, {}), Add(f, {}));
    var ix := Run(EMPTY, [Add(e, {}), Add(f, {})]);
    RunsAreCoherent([Add(e, {}), Add(f, {})]);
    hide Coherent, Cleared, Run, RepoLess, BaseName;
    var one := Added(EMPTY, e, {});
    assert ix == Added(one, f, {});
    AddedObjectAt(EMPTY, e, {}, e.fullId);
    AddedObjectAt(one, f, {}, e.fullId);
    AddedObjectAt(one, f, {}, f.fullId);
    AddedAt(one, f, {}, e.doc, BaseName(e.fullId));
    hide Added;
    KeptByClear(ix, e.doc, e.fullId);
    KeptByClear(ix, e.doc, f.fullId);
  }

  /** What one clear of its document misses, every later one misses too. */
  lemma MissedStays(ix: Index, id: string)
    requires Coherent(ix) && id in ix.objects && !Listed(ix, id)
    ensures var out := Cleared(ix, ix.objects[id].doc);
            id in out.objects && out.objects[id] == ix.objects[id] && Coherent(out) && !Listed(out, id)
  {
    var doc := ix.objects[id].doc;
    KeptByClear(ix, doc, id);
    ClearKeepsCoherent(ix, doc);
    ClearedForgets(ix, doc, BaseName(id));
    hide Coherent, Cleared, BaseName;
  }

  /** So after both twins have been cleared, the first is left without a twin, and
      clearing its document once more leaves it again. */
  lemma MissedWithoutTwin(e: Entry, f: Entry)
    requires Twins(e, f)
    ensures var ix := Run(EMPTY, [Add(e, {}), Add(f, {}), Clear(e.doc)]);
            NoTwins(ix) && e.fullId in ix.objects && e.fullId in Cleared(ix, e.doc).objects
  {
    var two, ops := [Add(e, {}), Add(f, {})], [Add(e, {}), Add(f, {}), Clear(e.doc)];
    TwinIsMissed(e, f);
    OnlyTwins(e, f);
    var ix := Run(EMPTY, two);
    var out := Cleared(ix, e.doc);
    hide Coherent, AllLegal, Listed, Twins, Run, Added;
    RunsAreCoherent(two);
    ThreeRun(Add(e, {}), Add(f, {}), Clear(e.doc));
    forall id | id in out.objects ensures id == e.fullId { ClearedIsSubset(ix, e.doc, id); }
    hide Cleared;
    KeptByClear(ix, e.doc, e.fullId);
    ClearedIsSubset(ix, e.doc, e.fullId);
    assert !Listed(ix, e.fullId);
    MissedStays(ix, e.fullId);
    KeptByClear(out, e.doc, e.fullId);
    NeverOwnTwin(e);
  }

  lemma ThreeRun(a: Operation, b: Operation, c: Operation)
    ensures Run(EMPTY, [a, b, c]) == Do(Run(EMPTY, [a, b]), c)
  {
    hide Do;
    assert [a, b, c][..2] == [a, b];
  }

  lemma NeverOwnTwin(e: Entry)
    ensures !Twins(e, e)
  {
  }

  lemma OnlyTwins(e: Entry, f: Entry)
    ensures forall id :: id in Run(EMPTY, [Add(e, {}), Add(f, {})]).objects ==> id == e.fullId || id == f.fullId
  {
    TwoRun(Add(e, {}), Add(f, {}));
    hide Put, RepoLess, BaseName, Run;
  }

  function SymbolId(c: char): string {
    "@r" + "//f" + "%" + [c, '.', 'x']
  }

  /** There are twins: symbols of one file that end alike. */
  lemma TwinsExist(e: Entry, f: Entry)
    requires e.fullId == SymbolId('a') && f.fullId == SymbolId('b') && e.doc == f.doc
    ensures Twins(e, f)
  {
    SymbolBase('a');
    SymbolBase('b');
    hide BaseName;
    assert SymbolId('a')[6] == 'a' && SymbolId('b')[6] == 'b';
  }

  lemma SymbolBase(c: char)
    requires c != '.'
    ensures BaseName(SymbolId(c)) == "x"
  {
    var s := SymbolId(c);
    SlashesAre(s, 2);
    assert s[2..] == "//f%" + [c, '.', 'x'];
    IndexOfIs(s[2..], '%', 3);
    var symbol := s[2..][4..];
    assert symbol == [c, '.', 'x'];
    assert LastIndexOf(symbol, '.') == 1;
  }

  lemma ClearedForgets(ix: Index, doc: string, b: string)
    ensures At(Cleared(ix, doc).docNames, doc, b) == None
  {
    hide KindsWithout, AliasesWithout, Ids, BaseName;
  }

  // ---------------------------------------------------------- cross references

  type Roles = map<string, set<string>>

  /** A kind's roles: which reference types may point to it. */
  predicate Plays(roles: Roles, e: Entry, role: string) {
    e.kind in roles && role in roles[e.kind]
  }

  function StripDashes(s: string): string {
    if s != "" && s[0] == '-' then StripDashes(s[1..])
    else if s != "" && s[|s| - 1] == '-' then StripDashes(s[..|s| - 1])
    else s
  }

  /** The reference type and name looked up: flags lose dashes and values, calls
      their arguments. */
  function Wanted(kind: string, target: string): (string, string) {
    var (k, t) := if StartsWith(target, "--") then ("flag", StripDashes(target)) else (kind, target);
    var called := t[..IndexOf(t, '(')];
    (k, called[..IndexOf(called, '=')])
  }

  function SearchSpace(ix: Index, kind: string): Bucket {
    if kind == "obj" then ix.objects else BucketOf(ix.byKind, kind)
  }

  /** The entries that an alias offers for a role. */
  function Offered(ix: Index, roles: Roles, alt: string, role: string): set<Entry> {
    set e | e in BucketOf(ix.altNames, alt).Values && Plays(roles, e, role)
  }

  /** What a reference may find: a local name that plays the role, else the exact id,
      else a shortest id among the entries of the alias. */
  ghost predicate Answers(ix: Index, roles: Roles, fromDoc: string, k: string, t: string, found: Option<Entry>) {
    var local := At(ix.docNames, fromDoc, t);
    if local.Some? && Plays(roles, local.value, k) then found == local
    else if t in SearchSpace(ix, k) then found == Some(SearchSpace(ix, k)[t])
    else if Offered(ix, roles, t, k) == {} then found == None
    else found.Some? && found.value in Offered(ix, roles, t, k)
         && forall e :: e in Offered(ix, roles, t, k) ==> |found.value.fullId| <= |e.fullId|
  }

  /** `_find_entry_for_xref`: a local name that plays the role, else the exact
      id, else a shortest id among the entries of the alias. */
  method FindEntryForXref(ix: Index, roles: Roles, fromDoc: string, kind: string, target: string)
    returns (found: Option<Entry>)
    ensures var (k, t) := Wanted(kind, target); Answers(ix, roles, fromDoc, k, t, found)
  {
    hide Wanted;
    var (k, t) := Wanted(kind, target);
    var local := At(ix.docNames, fromDoc, t);
    if local.Some? && Plays(roles, local.value, k) { return local; }
    if t in SearchSpace(ix, k) { return Some(SearchSpace(ix, k)[t]); }
    var todo := Offered(ix, roles, t, k);
    found := None;
    while todo != {}
      invariant todo <= Offered(ix, roles, t, k)
      invariant found.None? ==> todo == Offered(ix, roles, t, k)
      invariant found.Some? ==> found.value in Offered(ix, roles, t, k)
      invariant found.Some? ==> forall e :: e in Offered(ix, roles, t, k) - todo ==> |found.value.fullId| <= |e.fullId|
      decreases |todo|
    {
      var e :| e in todo;
      todo := todo - {e};
      if found.None? || |e.fullId| < |found.value.fullId| { found := Some(e); }
    }
  }

  /** Whatever a reference finds in a coherent index is a registered object. */
  lemma FoundIsLive(ix: Index, roles: Roles, fromDoc: string, k: string, t: string, e: Entry)
    requires Coherent(ix)
    requires At(ix.docNames, fromDoc, t) == Some(e) || (t in SearchSpace(ix, k) && SearchSpace(ix, k)[t] == e)
             || e in Offered(ix, roles, t, k)
    ensures Live(ix, e)
  {
    CoherentAt(ix, fromDoc, t);
    CoherentAt(ix, k, t);
    hide Coherent, BaseName, RepoLess;
    if e in Offered(ix, roles, t, k) {
      var id :| id in BucketOf(ix.altNames, t) && BucketOf(ix.altNames, t)[id] == e;
      CoherentAt(ix, t, id);
      CoherentAt(ix, "", id);
    }
    if t in SearchSpace(ix, k) && SearchSpace(ix, k)[t] == e {
      assert k != "obj" ==> At(ix.byKind, k, t) == Some(e);
    }
  }
}
