/** Python's `sorted`: on the keys of a dictionary, and stably by a key. */
module Sorting {
  import opened Text

  predicate IsLeast(k: string, s: set<string>) {
    k in s && forall j :: j in s ==> AtMost(k, j)
  }

  lemma {:induction false} LeastExists(s: set<string>)
    requires s != {}
    ensures exists k :: IsLeast(k, s)
  {
    hide Less;
    var x :| x in s;
    var rest := s - {x};
    if rest == {} {
      assert s == {x};
      assert IsLeast(x, s);
    } else {
      LeastExists(rest);
      var k :| IsLeast(k, rest);
      LessTotal(x, k);
      if Less(x, k) {
        forall j | j in s ensures AtMost(x, j) {
          if j != x && j != k { assert j in rest; LessTransitive(x, k, j); }
        }
        assert IsLeast(x, s);
      } else {
        assert IsLeast(k, s);
      }
    }
  }

  lemma LeastUnique(s: set<string>, a: string, b: string)
    requires IsLeast(a, s) && IsLeast(b, s)
    ensures a == b
  {
    if a != b { LessAsymmetric(a, b); }
  }

  function Least(s: set<string>): (k: string)
    requires s != {}
    ensures IsLeast(k, s)
  {
    LeastExists(s);
    assert forall a, b :: IsLeast(a, s) && IsLeast(b, s) ==> a == b by {
      forall a, b | IsLeast(a, s) && IsLeast(b, s) ensures a == b { LeastUnique(s, a, b); }
    }
    var k :| k in s && IsLeast(k, s);
    k
  }

  ghost predicate StrictlyIncreasing(keys: seq<string>) {
    forall i, j :: 0 <= i < j < |keys| ==> Less(keys[i], keys[j])
  }

  /** `sorted(s)` for a set or the keys of a dictionary. */
  function Sorted(s: set<string>): (keys: seq<string>)
    ensures forall k :: k in keys <==> k in s
    ensures StrictlyIncreasing(keys)
    decreases |s|
  {
    if s == {} then []
    else
      var k := Least(s);
      var rest := Sorted(s - {k});
      assert forall j :: 0 <= j < |rest| ==> rest[j] in rest;
      [k] + rest
  }

  // --------------------------------------------------------- stable sorting

  /** `x` put before the first element whose key is not smaller. */
  function Inserted<T>(x: T, key: T -> string, rest: seq<T>): seq<T> {
    if rest == [] || AtMost(key(x), key(rest[0])) then [x] + rest
    else [rest[0]] + Inserted(x, key, rest[1..])
  }

  /** `sorted(items, key=key)`: equal keys stay in order. */
  function StableSorted<T>(items: seq<T>, key: T -> string): seq<T> {
    if items == [] then [] else Inserted(items[0], key, StableSorted(items[1..], key))
  }

  ghost predicate Ordered<T>(items: seq<T>, key: T -> string) {
    forall i, j :: 0 <= i < j < |items| ==> AtMost(key(items[i]), key(items[j]))
  }

  lemma {:induction false} InsertedIs<T>(x: T, key: T -> string, rest: seq<T>)
    ensures multiset(Inserted(x, key, rest)) == multiset(rest) + multiset{x}
    ensures forall y :: y in Inserted(x, key, rest) <==> y == x || y in rest
  {
    hide AtMost;
    if rest != [] && !AtMost(key(x), key(rest[0])) {
      InsertedIs(x, key, rest[1..]);
      assert rest == [rest[0]] + rest[1..];
    }
  }

  ghost predicate AllAtLeast<T>(k: string, items: seq<T>, key: T -> string) {
    forall j :: 0 <= j < |items| ==> AtMost(k, key(items[j]))
  }

  /** A first element that none precedes extends an ordered sequence. */
  lemma FirstOrdered<T>(x: T, key: T -> string, rest: seq<T>)
    requires Ordered(rest, key) && AllAtLeast(key(x), rest, key)
    ensures Ordered([x] + rest, key)
  {
    hide AtMost;
    var out := [x] + rest;
    forall i, j | 0 <= i < j < |out| ensures AtMost(key(out[i]), key(out[j])) {
      assert out[j] == rest[j - 1];
      if i > 0 { assert out[i] == rest[i - 1]; }
    }
  }

  lemma OrderedFirst<T>(key: T -> string, rest: seq<T>)
    requires Ordered(rest, key) && rest != []
    ensures Ordered(rest[1..], key) && AllAtLeast(key(rest[0]), rest[1..], key)
  {
    hide AtMost;
    forall j | 0 <= j < |rest[1..]| ensures AtMost(key(rest[0]), key(rest[1..][j])) {
      assert rest[1..][j] == rest[j + 1];
    }
    forall i, j | 0 <= i < j < |rest[1..]| ensures AtMost(key(rest[1..][i]), key(rest[1..][j])) {
      assert rest[1..][i] == rest[i + 1] && rest[1..][j] == rest[j + 1];
    }
  }

  lemma {:induction false} InsertedAtLeast<T>(x: T, key: T -> string, rest: seq<T>, k: string)
    requires AtMost(k, key(x)) && AllAtLeast(k, rest, key)
    ensures AllAtLeast(k, Inserted(x, key, rest), key)
  {
    hide AtMost;
    if rest != [] && !AtMost(key(x), key(rest[0])) {
      assert forall j :: 0 <= j < |rest[1..]| ==> rest[1..][j] == rest[j + 1];
      InsertedAtLeast(x, key, rest[1..], k);
    }
  }

  lemma AtMostReflexive(a: string)
    ensures AtMost(a, a)
  {
  }

  lemma FirstAtLeast<T>(x: T, key: T -> string, rest: seq<T>)
    requires Ordered(rest, key) && (rest != [] ==> AtMost(key(x), key(rest[0])))
    ensures AllAtLeast(key(x), rest, key)
  {
    hide AtMost;
    forall j | 0 <= j < |rest| ensures AtMost(key(x), key(rest[j])) {
      if j > 0 { AtMostTransitive(key(x), key(rest[0]), key(rest[j])); }
    }
  }

  lemma {:induction false} InsertedKeeps<T>(x: T, key: T -> string, rest: seq<T>)
    requires Ordered(rest, key)
    ensures Ordered(Inserted(x, key, rest), key)
  {
    hide Less, Ordered, AllAtLeast;
    if rest == [] || AtMost(key(x), key(rest[0])) {
      FirstAtLeast(x, key, rest);
      FirstOrdered(x, key, rest);
    } else {
      OrderedFirst(key, rest);
      LessTotal(key(x), key(rest[0]));
      InsertedKeeps(x, key, rest[1..]);
      InsertedAtLeast(x, key, rest[1..], key(rest[0]));
      FirstOrdered(rest[0], key, Inserted(x, key, rest[1..]));
    }
  }

  lemma AtMostTransitive(a: string, b: string, c: string)
    requires AtMost(a, b) && AtMost(b, c)
    ensures AtMost(a, c)
  {
    if a != b && b != c { LessTransitive(a, b, c); }
  }

  /** Sorting orders by key and is a permutation. */
  lemma {:induction false} SortedByKey<T>(items: seq<T>, key: T -> string)
    ensures Ordered(StableSorted(items, key), key)
    ensures multiset(StableSorted(items, key)) == multiset(items)
    ensures forall y :: y in StableSorted(items, key) <==> y in items
  {
    hide AtMost, Inserted, Ordered;
    if items == [] {
      assert Ordered(StableSorted(items, key), key) by { NothingOrdered(key); }
    } else {
      SortedByKey(items[1..], key);
      InsertedKeeps(items[0], key, StableSorted(items[1..], key));
      InsertedIs(items[0], key, StableSorted(items[1..], key));
      assert items == [items[0]] + items[1..];
    }
  }

  lemma NothingOrdered<T>(key: T -> string)
    ensures Ordered([], key)
  {
  }

  /** The elements of one key, in order. */
  function OfKey<T>(items: seq<T>, key: T -> string, k: string): seq<T> {
    if items == [] then [] else (if key(items[0]) == k then [items[0]] else []) + OfKey(items[1..], key, k)
  }

  lemma OfKeyFirst<T>(x: T, rest: seq<T>, key: T -> string, k: string)
    ensures OfKey([x] + rest, key, k) == (if key(x) == k then [x] else []) + OfKey(rest, key, k)
  {
    assert ([x] + rest)[1..] == rest;
  }

  lemma {:induction false} InsertedStable<T>(x: T, key: T -> string, rest: seq<T>, k: string)
    ensures OfKey(Inserted(x, key, rest), key, k) == (if key(x) == k then [x] else []) + OfKey(rest, key, k)
  {
    hide AtMost, OfKey;
    if rest == [] || AtMost(key(x), key(rest[0])) {
      OfKeyFirst(x, rest, key, k);
    } else {
      AtMostReflexive(key(x));
      InsertedStable(x, key, rest[1..], k);
      OfKeyFirst(rest[0], Inserted(x, key, rest[1..]), key, k);
      OfKeyFirst(rest[0], rest[1..], key, k);
      assert rest == [rest[0]] + rest[1..];
    }
  }

  /** Elements of equal key keep their order. */
  lemma {:induction false} SortIsStable<T>(items: seq<T>, key: T -> string, k: string)
    ensures OfKey(StableSorted(items, key), key, k) == OfKey(items, key, k)
  {
    hide Inserted;
    if items != [] {
      SortIsStable(items[1..], key, k);
      InsertedStable(items[0], key, StableSorted(items[1..], key), k);
    }
  }

  /** What is in order already is left alone. */
  lemma {:induction false} SortedAlready<T>(items: seq<T>, key: T -> string)
    requires Ordered(items, key)
    ensures StableSorted(items, key) == items
  {
    hide AtMost;
    if items != [] {
      assert forall i :: 0 <= i < |items[1..]| ==> items[1..][i] == items[i + 1];
      SortedAlready(items[1..], key);
      if |items| > 1 { assert AtMost(key(items[0]), key(items[1])); }
    }
  }
}
