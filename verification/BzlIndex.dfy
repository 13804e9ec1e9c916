/** The Bazel documentation domain: four nested dictionaries kept in step by
    adding, clearing and merging. */
module BzlIndex {
  import opened Text
  import opened Sorting

  datatype Entry = Entry(fullId: string, display: string, kind: string, priority: int, doc: string, anchor: string)

  type Bucket = map<string, Entry>
  type Buckets = map<string, Bucket>

  datatype Index = Index(objects: Bucket, byKind: Buckets, docNames: Buckets, altNames: Buckets)

  const EMPTY := Index(map[], map[], map[], map[])

  // -------------------------------------------------------------------- ids

  /** The index of the first `//`, or |s|. */
  function SlashesAt(s: string): (i: nat)
    ensures i <= |s|
    ensures i < |s| ==> i + 1 < |s| && s[i] == '/' && s[i + 1] == '/'
    ensures forall j :: 0 <= j < i && j + 1 < |s| ==> s[j] != '/' || s[j + 1] != '/'
  {
    if |s| < 2 then |s|
    else if s[0] == '/' && s[1] == '/' then 0
    else 1 + SlashesAt(s[1..])
  }

  datatype Id = Id(repo: string, file: string, symbol: string)

  /** `_parse_full_id`. */
  function ParseId(fullId: string): Id {
    var i := SlashesAt(fullId);
    var rest := fullId[i..];
    var j := IndexOf(rest, '%');
    Id(fullId[..i], rest[..j], if j < |rest| then rest[j + 1..] else "")
  }

  function JoinDots(names: seq<string>): string {
    if names == [] then "" else if |names| == 1 then names[0] else names[0] + "." + JoinDots(names[1..])
  }

  function NonEmptyOf(names: seq<string>): seq<string> {
    if names == [] then [] else (if names[0] == "" then [] else [names[0]]) + NonEmptyOf(names[1..])
  }

  /** `_full_id_from_parts`. */
  function FullId(repo: string, file: string, names: seq<string>): string {
    repo + file + if NonEmptyOf(names) == [] then "" else "%" + JoinDots(NonEmptyOf(names))
  }

  lemma SlashesAre(s: string, i: nat)
    requires i + 1 < |s| && s[i] == '/' && s[i + 1] == '/'
    requires forall j :: 0 <= j < i ==> s[j] != '/' || s[j + 1] != '/'
    ensures SlashesAt(s) == i
  {
  }

  /** An id taken apart gives back what it was made of, for a repository name
      without slashes and a `//` label without `%`. */
  lemma IdRoundTrip(repo: string, file: string, names: seq<string>)
    requires '/' !in repo && StartsWith(file, "//") && '%' !in file
    ensures ParseId(FullId(repo, file, names)) == Id(repo, file, JoinDots(NonEmptyOf(names)))
  {
    var kept := NonEmptyOf(names);
    hide NonEmptyOf, JoinDots;
    var symbol := JoinDots(kept);
    assert kept == [] ==> symbol == "" by { NothingJoined(); }
    var tail := if kept == [] then "" else "%" + symbol;
    var id := repo + file + tail;
    assert file[0] == "//"[0] && file[1] == "//"[1];
    assert id[|repo|] == file[0] && id[|repo| + 1] == file[1];
    SlashesAre(id, |repo|);
    assert id[|repo|..] == file + tail && id[..|repo|] == repo;
    IndexOfIs(file + tail, '%', |file|);
    assert (file + tail)[..|file|] == file;
    if kept != [] { assert (file + tail)[|file| + 1..] == symbol; }
  }

  lemma NothingJoined()
    ensures JoinDots([]) == ""
  {
  }

  function AfterLast(s: string, c: char): string {
    s[LastIndexOf(s, c) + 1..]
  }

  function BaseName(fullId: string): string {
    var id := ParseId(fullId);
    if id.symbol != "" then AfterLast(id.symbol, '.') else AfterLast(id.file, ':')
  }

  /** The alias every object gets: its id without the repository. */
  function RepoLess(fullId: string): string {
    var id := ParseId(fullId);
    id.file + if id.symbol != "" then "%" + id.symbol else ""
  }

  // -------------------------------------------------------------- operations

  function BucketOf(m: Buckets, k: string): Bucket {
    if k in m then m[k] else map[]
  }

  function Put(m: Buckets, keys: set<string>, id: string, e: Entry): Buckets {
    map k | k in m.Keys + keys :: if k in keys then BucketOf(m, k)[id := e] else m[k]
  }

  /** `add_object` on a new id. */
  function Added(ix: Index, e: Entry, aliases: set<string>): Index {
    Index(ix.objects[e.fullId := e],
          Put(ix.byKind, {e.kind}, e.fullId, e),
          Put(ix.docNames, {e.doc}, BaseName(e.fullId), e),
          Put(ix.altNames, aliases + {RepoLess(e.fullId)}, e.fullId, e))
  }

  function Ids(es: set<Entry>): set<string> {
    set e | e in es :: e.fullId
  }

  function IdsOfKind(es: set<Entry>, kind: string): set<string> {
    set e | e in es && e.kind == kind :: e.fullId
  }

  function KindsWithout(m: Buckets, es: set<Entry>): Buckets {
    map k | k in m :: m[k] - IdsOfKind(es, k)
  }

  /** Alias buckets that are empty then are dropped. */
  function AliasesWithout(m: Buckets, ids: set<string>): Buckets {
    map a | a in m && m[a] - ids != map[] :: m[a] - ids
  }

  /** Entries taken out of all maps but `docNames`. */
  function Without(ix: Index, es: set<Entry>): Index {
    if es == {} then ix
    else Index(ix.objects - Ids(es), KindsWithout(ix.byKind, es), ix.docNames, AliasesWithout(ix.altNames, Ids(es)))
  }

  /** `clear_doc`. */
  function Cleared(ix: Index, doc: string): Index {
    if doc !in ix.docNames then ix
    else Without(ix, ix.docNames[doc].Values).(docNames := ix.docNames - {doc})
  }

  /** The buckets of `other` under some keys, merged into those of `m`. */
  function MergedOn(m: Buckets, other: Buckets, keys: set<string>): Buckets {
    map k | k in m.Keys + keys :: if k in keys then BucketOf(m, k) + BucketOf(other, k) else BucketOf(m, k)
  }

  function MergedBuckets(m: Buckets, other: Buckets): Buckets {
    MergedOn(m, other, other.Keys)
  }

  /** `merge_domaindata`. */
  function Merged(ix: Index, other: Index): Index {
    Index(ix.objects + other.objects, MergedBuckets(ix.byKind, other.byKind),
          MergedBuckets(ix.docNames, other.docNames), MergedBuckets(ix.altNames, other.altNames))
  }

  class BzlDomain {
    var data: Index

    constructor ()
      ensures data == EMPTY
    {
      data := EMPTY;
    }

    /** False is the exception for an id registered with other content. */
    method AddObject(e: Entry, altNames: set<string>) returns (ok: bool)
      modifies this
      ensures ok <==> (e.fullId in old(data).objects ==> old(data).objects[e.fullId] == e)
      ensures data == if e.fullId in old(data).objects then old(data) else Added(old(data), e, altNames)
    {
      if e.fullId in data.objects { return data.objects[e.fullId] == e; }
      ghost var before := data;
      var id := e.fullId;
      data := data.(objects := data.objects[id := e]);
      data := data.(byKind := data.byKind[e.kind := BucketOf(data.byKind, e.kind)[id := e]]);
      hide Put, Sorted, ParseId, BaseName, RepoLess;
      var alt := PutAll(data.altNames, Sorted(altNames + {RepoLess(id)}), id, e);
      assert Elements(Sorted(altNames + {RepoLess(id)})) == altNames + {RepoLess(id)};
      data := data.(altNames := alt);
      data := data.(docNames := data.docNames[e.doc := BucketOf(data.docNames, e.doc)[BaseName(id) := e]]);
      PutOne(before.byKind, e.kind, id, e);
      PutOne(before.docNames, e.doc, BaseName(id), e);
      ok := true;
    }

    static method PutAll(m: Buckets, keys: seq<string>, id: string, e: Entry) returns (r: Buckets)
      ensures r == Put(m, Elements(keys), id, e)
    {
      hide Put, Elements;
      r := m;
      assert m == Put(m, Elements(keys[..0]), id, e) by { PutNone(m, keys, id, e); }
      for i := 0 to |keys|
        invariant r == Put(m, Elements(keys[..i]), id, e)
      {
        ElementsMore(keys, i);
        PutMore(m, Elements(keys[..i]), keys[i], id, e);
        r := r[keys[i] := BucketOf(r, keys[i])[id := e]];
      }
      assert keys[..|keys|] == keys;
    }

    /** The sweep over all aliases for one id. */
    static method RemoveAlias(altNames: Buckets, id: string) returns (alt: Buckets)
      ensures alt == map a | a in altNames && altNames[a] - {id} != map[] :: altNames[a] - {id}
    {
      alt := altNames;
      var todo := altNames.Keys;
      while todo != {}
        invariant todo <= altNames.Keys
        invariant alt == map a | a in altNames
                  && (a in todo || altNames[a] - {id} != map[]) :: if a in todo then altNames[a] else altNames[a] - {id}
        decreases |todo|
      {
        var a :| a in todo;
        todo := todo - {a};
        var left := alt[a] - {id};
        alt := if left == map[] then alt - {a} else alt[a := left];
      }
    }

    method RemoveEntry(e: Entry)
      modifies this
      ensures data == Without(old(data), {e})
    {
      ghost var before := data;
      var objects := data.objects - {e.fullId};
      var byKind := data.byKind;
      if e.kind in byKind && e.fullId in byKind[e.kind] {
        byKind := byKind[e.kind := byKind[e.kind] - {e.fullId}];
      }
      var alt := RemoveAlias(data.altNames, e.fullId);
      data := Index(objects, byKind, data.docNames, alt);
      assert Ids({e}) == {e.fullId};
      OneKind(before.byKind, e);
    }

    method ClearDoc(doc: string)
      modifies this
      ensures data == Cleared(old(data), doc)
    {
      if doc !in data.docNames { return; }
      ghost var before := data;
      var todo := data.docNames[doc].Keys;
      ghost var done: set<Entry> := {};
      assert Without(before, done) == before;
      hide Without;
      while todo != {}
        invariant data == Without(before, done) && data.docNames == before.docNames
        invariant todo <= before.docNames[doc].Keys
        invariant done == set b | b in before.docNames[doc] && b !in todo :: before.docNames[doc][b]
        decreases |todo|
      {
        var b :| b in todo;
        todo := todo - {b};
        var e := data.docNames[doc][b];
        WithoutMore(before, done, e);
        RemoveEntry(e);
        done := done + {e};
      }
      assert done == before.docNames[doc].Values;
      data := data.(docNames := data.docNames - {doc});
    }

    method MergeDomaindata(other: Index)
      modifies this
      ensures data == Merged(old(data), other)
    {
      var byKind := MergeBuckets(data.byKind, other.byKind);
      var docNames := MergeBuckets(data.docNames, other.docNames);
      var altNames := MergeBuckets(data.altNames, other.altNames);
      data := Index(data.objects + other.objects, byKind, docNames, altNames);
    }

    static method MergeBuckets(existing: Buckets, other: Buckets) returns (merged: Buckets)
      ensures merged == MergedBuckets(existing, other)
    {
      merged := existing;
      var keys := Sorted(other.Keys);
      assert MergedOn(existing, other, Elements(keys[..0])) == existing;
      assert Elements(keys) == other.Keys;
      hide MergedOn, Elements, MergeOne, Sorted, StrictlyIncreasing;
      for i := 0 to |keys|
        invariant merged == MergedOn(existing, other, Elements(keys[..i]))
      {
        assert keys[i] in keys;
        ElementsMore(keys, i);
        MergeMore(existing, other, Elements(keys[..i]), keys[i]);
        merged := MergeOne(merged, keys[i], other[keys[i]]);
      }
      assert keys[..|keys|] == keys;
    }
  }

  function MergeOne(m: Buckets, k: string, values: Bucket): Buckets {
    m[k := if k in m then m[k] + values else values]
  }

  lemma MergeMore(m: Buckets, other: Buckets, done: set<string>, k: string)
    requires k in other
    ensures MergeOne(MergedOn(m, other, done), k, other[k]) == MergedOn(m, other, done + {k})
  {
    assert map[] + other[k] == other[k];
    assert BucketOf(m, k) + other[k] + other[k] == BucketOf(m, k) + other[k];
  }

  function Elements(keys: seq<string>): set<string> {
    set k | k in keys
  }

  lemma ElementsMore(keys: seq<string>, i: nat)
    requires i < |keys|
    ensures Elements(keys[..i + 1]) == Elements(keys[..i]) + {keys[i]}
  {
    assert keys[..i + 1] == keys[..i] + [keys[i]];
  }

  lemma PutNone(m: Buckets, keys: seq<string>, id: string, e: Entry)
    ensures Put(m, Elements(keys[..0]), id, e) == m
  {
  }

  lemma PutMore(m: Buckets, done: set<string>, k: string, id: string, e: Entry)
    ensures var r := Put(m, done, id, e); r[k := BucketOf(r, k)[id := e]] == Put(m, done + {k}, id, e)
  {
    assert BucketOf(m, k)[id := e][id := e] == BucketOf(m, k)[id := e];
  }

  lemma PutOne(m: Buckets, k: string, id: string, e: Entry)
    ensures m[k := BucketOf(m, k)[id := e]] == Put(m, {k}, id, e)
  {
  }

  lemma OneKind(m: Buckets, e: Entry)
    ensures KindsWithout(m, {e}) == if e.kind in m && e.fullId in m[e.kind] then m[e.kind := m[e.kind] - {e.fullId}]
            else m
  {
    forall k ensures IdsOfKind({e}, k) == if k == e.kind then {e.fullId} else {} {
      if k == e.kind { assert e in {e}; }
    }
    assert forall k :: k in m ==> m[k] - {} == m[k];
    assert e.kind in m && e.fullId !in m[e.kind] ==> m[e.kind] - {e.fullId} == m[e.kind];
  }

  lemma KindsWithoutMore(m: Buckets, es: set<Entry>, e: Entry)
    ensures KindsWithout(KindsWithout(m, es), {e}) == KindsWithout(m, es + {e})
  {
    forall k | k in m ensures m[k] - IdsOfKind(es, k) - IdsOfKind({e}, k) == m[k] - IdsOfKind(es + {e}, k) {
      assert IdsOfKind(es + {e}, k) == IdsOfKind(es, k) + IdsOfKind({e}, k);
    }
  }

  lemma AliasesWithoutMore(m: Buckets, ids: set<string>, more: set<string>)
    ensures AliasesWithout(AliasesWithout(m, ids), more) == AliasesWithout(m, ids + more)
  {
    forall a | a in m ensures m[a] - ids - more == m[a] - (ids + more) {}
    forall a | a in m && m[a] - ids == map[] ensures m[a] - (ids + more) == map[] {
      assert m[a] - ids - more == map[];
    }
  }

  lemma WithoutMore(ix: Index, es: set<Entry>, e: Entry)
    ensures Without(Without(ix, es), {e}) == Without(ix, es + {e})
  {
    if es == {} {
      assert es + {e} == {e};
    } else {
      KindsWithoutMore(ix.byKind, es, e);
      assert Ids(es + {e}) == Ids(es) + Ids({e});
      AliasesWithoutMore(ix.altNames, Ids(es), Ids({e}));
      hide KindsWithout, AliasesWithout, Ids;
      assert ix.objects - Ids(es) - Ids({e}) == ix.objects - (Ids(es) + Ids({e}));
    }
  }
}
