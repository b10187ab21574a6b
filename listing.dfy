/**
 * The handful of JavaScript array and Map operations the stores and the
 * pricing calculator are built from: `filter`, `find`, a stable `sort` on a
 * numeric key, and reading a Map's values in insertion order.
 */
module Listing {
  import opened Maybe

  /** No element occurs twice. */
  predicate NoDup<T(==)>(s: seq<T>) {
    forall i, j :: 0 <= i < j < |s| ==> s[i] != s[j]
  }

  /** `s.filter(p)`: the elements satisfying `p`, in their original order. */
  function Keep<T>(s: seq<T>, p: T -> bool): (r: seq<T>)
    ensures |r| <= |s|
    ensures forall x :: x in r ==> x in s && p(x)
    ensures forall x :: x in s && p(x) ==> x in r
  {
    if s == [] then [] else (if p(s[0]) then [s[0]] else []) + Keep(s[1..], p)
  }

  lemma {:induction false} KeepAppend<T>(a: seq<T>, b: seq<T>, p: T -> bool)
    ensures Keep(a + b, p) == Keep(a, p) + Keep(b, p)
  {
    if a == [] {
      assert a + b == b;
    } else {
      assert (a + b)[0] == a[0];
      assert (a + b)[1..] == a[1..] + b;
      KeepAppend(a[1..], b, p);
    }
  }

  lemma {:induction false} KeepAll<T>(s: seq<T>, p: T -> bool)
    requires forall i :: 0 <= i < |s| ==> p(s[i])
    ensures Keep(s, p) == s
  {
    if s != [] {
      KeepAll(s[1..], p);
    }
  }

  /** The test `y !== x`, as a function value. */
  function Differs<T(==)>(x: T): T -> bool {
    y => y != x
  }

  /** `s.filter(y => y !== x)`: every occurrence of `x` removed, the rest in order. */
  function Without<T(==)>(s: seq<T>, x: T): (r: seq<T>)
    ensures x !in r
    ensures forall y :: y in r ==> y in s
    ensures forall y :: y in s && y != x ==> y in r
  {
    Keep(s, Differs(x))
  }

  /** Removing an element that is not there changes nothing. */
  lemma WithoutAbsent<T>(s: seq<T>, x: T)
    requires x !in s
    ensures Without(s, x) == s
  {
    KeepAll(s, Differs(x));
  }

  lemma WithoutAppend<T>(a: seq<T>, b: seq<T>, x: T)
    ensures Without(a + b, x) == Without(a, x) + Without(b, x)
  {
    KeepAppend(a, b, Differs(x));
  }

  /** Removing the one occurrence of `x` leaves what was around it. */
  lemma WithoutSplit<T>(a: seq<T>, x: T, b: seq<T>)
    requires x !in a && x !in b
    ensures Without(a + [x] + b, x) == a + b
  {
    assert Without([x], x) == [] by {
      assert !Differs(x)(x);
      assert [x][1..] == [];
    }
    calc {
      Without(a + [x] + b, x);
      { WithoutAppend(a + [x], b, x); }
      Without(a + [x], x) + Without(b, x);
      { WithoutAppend(a, [x], x); }
      Without(a, x) + Without([x], x) + Without(b, x);
      { WithoutAbsent(a, x); WithoutAbsent(b, x); }
      a + [] + b;
    }
    assert a + [] + b == a + b;
  }

  /** Filtering keeps a sequence free of duplicates. */
  lemma {:induction false} KeepNoDup<T>(s: seq<T>, p: T -> bool)
    requires NoDup(s)
    ensures NoDup(Keep(s, p))
  {
    if s != [] {
      KeepNoDup(s[1..], p);
      assert s[0] !in s[1..];
    }
  }

  /** Appending a new element keeps a sequence free of duplicates. */
  lemma AppendNoDup<T>(s: seq<T>, x: T)
    requires NoDup(s) && x !in s
    ensures NoDup(s + [x])
  {
  }

  /** A sequence without duplicates has as many elements as its set of elements. */
  lemma {:induction false} NoDupCard<T>(s: seq<T>)
    requires NoDup(s)
    ensures |set x | x in s| == |s|
  {
    if s != [] {
      NoDupCard(s[1..]);
      assert (set x | x in s) == {s[0]} + (set x | x in s[1..]);
      assert s[0] !in s[1..];
    }
  }

  /** `s.find(p)`: the first element satisfying `p`, or `undefined`. */
  function FindFirst<T>(s: seq<T>, p: T -> bool): (r: Option<T>)
    ensures r.Some? ==> p(r.value) && r.value in s
    ensures r.None? <==> forall i :: 0 <= i < |s| ==> !p(s[i])
  {
    if s == [] then None else if p(s[0]) then Some(s[0]) else FindFirst(s[1..], p)
  }

  /** What `find` returns sits at some position before which nothing satisfies `p`. */
  lemma {:induction false} FindFirstIsFirst<T>(s: seq<T>, p: T -> bool)
    requires FindFirst(s, p).Some?
    ensures exists i :: 0 <= i < |s| && s[i] == FindFirst(s, p).value &&
                        forall j :: 0 <= j < i ==> !p(s[j])
  {
    if !p(s[0]) {
      FindFirstIsFirst(s[1..], p);
      var i :| 0 <= i < |s[1..]| && s[1..][i] == FindFirst(s[1..], p).value &&
                forall j :: 0 <= j < i ==> !p(s[1..][j]);
      assert s[i + 1] == FindFirst(s, p).value;
      assert forall j :: 0 <= j < i + 1 ==> !p(s[j]) by {
        forall j | 0 <= j < i + 1 ensures !p(s[j]) {
          if j > 0 { assert s[j] == s[1..][j - 1]; }
        }
      }
    } else {
      assert s[0] == FindFirst(s, p).value;
    }
  }

  /** Appending never changes what `find` already finds in the prefix. */
  lemma {:induction false} FindFirstAppend<T>(a: seq<T>, b: seq<T>, p: T -> bool)
    requires FindFirst(a, p).Some?
    ensures FindFirst(a + b, p) == FindFirst(a, p)
  {
    assert (a + b)[0] == a[0];
    if !p(a[0]) {
      assert (a + b)[1..] == a[1..] + b;
      FindFirstAppend(a[1..], b, p);
    }
  }

  /** Every element of `s` has a key of at most `b`. */
  predicate KeysAtMost<T>(s: seq<T>, key: T -> int, b: int) {
    forall i :: 0 <= i < |s| ==> key(s[i]) <= b
  }

  /** Keys never increase from left to right: newest first when the key is a creation time. */
  predicate SortedDesc<T>(s: seq<T>, key: T -> int) {
    forall i, j :: 0 <= i < j < |s| ==> key(s[i]) >= key(s[j])
  }

  /** Puts `x` just before the first element whose key is not larger than its own. */
  function Insert<T>(x: T, s: seq<T>, key: T -> int): seq<T> {
    if s == [] || key(s[0]) <= key(x) then [x] + s else [s[0]] + Insert(x, s[1..], key)
  }

  /**
   * `s.sort((a, b) => key(b) - key(a))`. JavaScript's sort is stable, so
   * elements with equal keys keep the order they had in `s`.
   */
  function SortDesc<T>(s: seq<T>, key: T -> int): seq<T> {
    if s == [] then [] else Insert(s[0], SortDesc(s[1..], key), key)
  }

  lemma {:induction false} InsertPerm<T>(x: T, s: seq<T>, key: T -> int)
    ensures multiset(Insert(x, s, key)) == multiset(s) + multiset{x}
  {
    if s != [] && key(s[0]) > key(x) {
      InsertPerm(x, s[1..], key);
      assert s == [s[0]] + s[1..];
    }
  }

  lemma {:induction false} InsertBound<T>(x: T, s: seq<T>, key: T -> int, b: int)
    requires KeysAtMost(s, key, b) && key(x) <= b
    ensures KeysAtMost(Insert(x, s, key), key, b)
  {
    if s != [] && key(s[0]) > key(x) {
      InsertBound(x, s[1..], key, b);
    }
  }

  lemma {:induction false} InsertSorted<T>(x: T, s: seq<T>, key: T -> int)
    requires SortedDesc(s, key)
    ensures SortedDesc(Insert(x, s, key), key)
  {
    if s == [] || key(s[0]) <= key(x) {
      var r := [x] + s;
      forall i, j | 0 <= i < j < |r| ensures key(r[i]) >= key(r[j]) {
        if i > 0 {
          assert r[i] == s[i - 1] && r[j] == s[j - 1];
        } else if j > 1 {
          assert key(s[0]) >= key(s[j - 1]);
        }
      }
    } else {
      var rest := Insert(x, s[1..], key);
      InsertSorted(x, s[1..], key);
      InsertBound(x, s[1..], key, key(s[0]));
      var r := [s[0]] + rest;
      forall i, j | 0 <= i < j < |r| ensures key(r[i]) >= key(r[j]) {
        if i > 0 {
          assert r[i] == rest[i - 1] && r[j] == rest[j - 1];
        } else {
          assert r[j] == rest[j - 1];
        }
      }
    }
  }

  /** The sort returns the same elements, each as often as before. */
  lemma {:induction false} SortDescPerm<T>(s: seq<T>, key: T -> int)
    ensures multiset(SortDesc(s, key)) == multiset(s)
    ensures |SortDesc(s, key)| == |s|
  {
    if s != [] {
      SortDescPerm(s[1..], key);
      InsertPerm(s[0], SortDesc(s[1..], key), key);
      assert s == [s[0]] + s[1..];
    }
    assert |multiset(SortDesc(s, key))| == |SortDesc(s, key)|;
  }

  /** The sort orders by non-increasing key. */
  lemma {:induction false} SortDescSorted<T>(s: seq<T>, key: T -> int)
    ensures SortedDesc(SortDesc(s, key), key)
  {
    if s != [] {
      SortDescSorted(s[1..], key);
      InsertSorted(s[0], SortDesc(s[1..], key), key);
    }
  }

  /** The test `key(t) === k`, as a function value. */
  function HasKey<T>(key: T -> int, k: int): T -> bool {
    t => key(t) == k
  }

  lemma {:induction false} InsertStable<T>(x: T, s: seq<T>, key: T -> int, k: int)
    ensures Keep(Insert(x, s, key), HasKey(key, k)) ==
            (if key(x) == k then [x] else []) + Keep(s, HasKey(key, k))
  {
    var p := HasKey(key, k);
    if s == [] || key(s[0]) <= key(x) {
      KeepCons(x, s, p);
    } else {
      InsertStable(x, s[1..], key, k);
      KeepCons(s[0], Insert(x, s[1..], key), p);
      SwapEmpty(if p(s[0]) then [s[0]] else [], if p(x) then [x] else [], Keep(s[1..], p));
    }
  }

  /** Two prefixes of which one is empty can be swapped. */
  lemma SwapEmpty<T>(a: seq<T>, b: seq<T>, c: seq<T>)
    requires a == [] || b == []
    ensures a + (b + c) == b + (a + c)
  {
    if a == [] {
      assert a + (b + c) == b + c == b + (a + c);
    } else {
      assert a + (b + c) == a + c == b + (a + c);
    }
  }

  /** Filtering a list with a known head. */
  lemma KeepCons<T>(y: T, s: seq<T>, p: T -> bool)
    ensures Keep([y] + s, p) == (if p(y) then [y] else []) + Keep(s, p)
  {
    assert ([y] + s)[1..] == s;
  }

  /** Stability: among elements with any one key, the sort keeps their original order. */
  lemma {:induction false} SortDescStable<T>(s: seq<T>, key: T -> int, k: int)
    ensures Keep(SortDesc(s, key), HasKey(key, k)) == Keep(s, HasKey(key, k))
  {
    if s != [] {
      SortDescStable(s[1..], key, k);
      InsertStable(s[0], SortDesc(s[1..], key), key, k);
    }
  }

  /** A JavaScript Map's key bookkeeping: the keys of `m`, each listed once, in insertion order. */
  predicate OrderedKeys<K(==), V>(m: map<K, V>, order: seq<K>) {
    && (forall k :: k in m ==> k in order)
    && (forall k :: k in order ==> k in m)
    && NoDup(order)
  }

  /** `Array.from(m.values())`: the values of `m` in the insertion order of their keys. */
  function InOrder<K, V>(m: map<K, V>, order: seq<K>): (r: seq<V>)
    requires forall k :: k in order ==> k in m
    ensures |r| == |order|
    ensures forall i :: 0 <= i < |order| ==> r[i] == m[order[i]]
  {
    if order == [] then [] else [m[order[0]]] + InOrder(m, order[1..])
  }

  /** Reading a Map's values yields each stored value and nothing else, once per key. */
  lemma InOrderValues<K, V>(m: map<K, V>, order: seq<K>)
    requires OrderedKeys(m, order)
    ensures |InOrder(m, order)| == |m|
    ensures forall v :: v in InOrder(m, order) <==> v in m.Values
  {
    NoDupCard(order);
    assert m.Keys == set x | x in order;
    var r := InOrder(m, order);
    forall v ensures v in r <==> v in m.Values {
      if v in r {
        var i :| 0 <= i < |r| && r[i] == v;
        assert order[i] in m;
      }
      if v in m.Values {
        var k :| k in m && m[k] == v;
        var i :| 0 <= i < |order| && order[i] == k;
        assert r[i] == v;
      }
    }
  }

  /** Setting a new key appends its value to the Map's values, after the old ones. */
  lemma InOrderAppend<K, V>(m: map<K, V>, order: seq<K>, k: K, v: V)
    requires forall x :: x in order ==> x in m
    requires k !in m
    ensures InOrder(m[k := v], order + [k]) == InOrder(m, order) + [v]
  {
    var r, s := InOrder(m[k := v], order + [k]), InOrder(m, order) + [v];
    assert |r| == |s|;
    forall i | 0 <= i < |r| ensures r[i] == s[i] {
      if i < |order| {
        assert (order + [k])[i] == order[i];
        assert order[i] != k;
      }
    }
  }
}
