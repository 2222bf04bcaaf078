/**
 * A stable sort by an integer key, the way Python's `sorted(xs, key=...)`
 * orders the readings in `dbQuery` and the (time, value) pairs in `graphFunc`.
 *
 * The sort is specified independently of its definition: the result is
 * ordered by key, and for every key value the elements carrying that key
 * appear in their original order (`WithKey` is unchanged). `SortByUnique`
 * shows that these two facts determine the result completely.
 */
module StableSort {

  /** `s` is ordered non-decreasingly by `key`. */
  predicate SortedBy<T>(s: seq<T>, key: T -> int) {
    forall i, j :: 0 <= i < j < |s| ==> key(s[i]) <= key(s[j])
  }

  /** The elements of `s` whose key is `k`, in the order they have in `s`. */
  function WithKey<T>(s: seq<T>, key: T -> int, k: int): (r: seq<T>)
    ensures |r| <= |s|
  {
    if s == [] then []
    else (if key(s[0]) == k then [s[0]] else []) + WithKey(s[1..], key, k)
  }

  /** Applies `f` to every element. */
  function Map<A, B>(s: seq<A>, f: A -> B): (r: seq<B>)
    ensures |r| == |s|
    ensures forall i :: 0 <= i < |s| ==> r[i] == f(s[i])
  {
    if s == [] then [] else [f(s[0])] + Map(s[1..], f)
  }

  /** Putting `y` in front of a sorted sequence keeps it sorted when `y` is not above its head. */
  lemma ConsSorted<T>(y: T, t: seq<T>, key: T -> int)
    requires SortedBy(t, key)
    requires t != [] ==> key(y) <= key(t[0])
    ensures SortedBy([y] + t, key)
  {
  }

  /** Puts `x` in front of the first element whose key is not smaller than its own. */
  function Insert<T(==)>(x: T, s: seq<T>, key: T -> int): (r: seq<T>)
    requires SortedBy(s, key)
    ensures multiset(r) == multiset(s) + multiset{x}
    ensures |r| == |s| + 1 && (r[0] == x || (s != [] && r[0] == s[0]))
    ensures SortedBy(r, key)
  {
    if s == [] || key(x) <= key(s[0]) then
      ConsSorted(x, s, key);
      [x] + s
    else
      assert s == [s[0]] + s[1..];
      var rest := Insert(x, s[1..], key);
      ConsSorted(s[0], rest, key);
      [s[0]] + rest
  }

  /** Stable insertion sort: `s[0]` goes in front of every later element with the same key. */
  function SortBy<T(==)>(s: seq<T>, key: T -> int): (r: seq<T>)
    ensures multiset(r) == multiset(s)
    ensures |r| == |s|
    ensures SortedBy(r, key)
  {
    if s == [] then []
    else
      assert s == [s[0]] + s[1..];
      Insert(s[0], SortBy(s[1..], key), key)
  }

  /** Sorting introduces no new elements. */
  lemma SortByMembers<T>(s: seq<T>, key: T -> int)
    ensures forall i :: 0 <= i < |SortBy(s, key)| ==> SortBy(s, key)[i] in s
  {
    var r := SortBy(s, key);
    forall i | 0 <= i < |r|
      ensures r[i] in s
    {
      assert r[i] in multiset(r);
    }
  }

  lemma WithKeyCons<T>(y: T, t: seq<T>, key: T -> int, k: int)
    ensures WithKey([y] + t, key, k) == (if key(y) == k then [y] else []) + WithKey(t, key, k)
  {
    assert ([y] + t)[0] == y && ([y] + t)[1..] == t;
  }

  lemma {:induction false} InsertWithKey<T>(x: T, s: seq<T>, key: T -> int, k: int)
    requires SortedBy(s, key)
    ensures WithKey(Insert(x, s, key), key, k) == (if key(x) == k then [x] else []) + WithKey(s, key, k)
  {
    if s == [] || key(x) <= key(s[0]) {
      WithKeyCons(x, s, key, k);
    } else {
      var rest := Insert(x, s[1..], key);
      InsertWithKey(x, s[1..], key, k);
      WithKeyCons(s[0], rest, key, k);
      WithKeyCons(s[0], s[1..], key, k);
      assert s == [s[0]] + s[1..];
      assert key(x) == k ==> key(s[0]) != k;
    }
  }

  /** Sorting keeps the relative order of elements with equal keys (stability). */
  lemma {:induction false} SortByStable<T>(s: seq<T>, key: T -> int, k: int)
    ensures WithKey(SortBy(s, key), key, k) == WithKey(s, key, k)
  {
    if s != [] {
      SortByStable(s[1..], key, k);
      InsertWithKey(s[0], SortBy(s[1..], key), key, k);
    }
  }

  lemma EmptyWithoutKeys<T>(s: seq<T>, key: T -> int)
    requires forall k :: WithKey(s, key, k) == []
    ensures s == []
  {
    if s != [] {
      assert WithKey(s, key, key(s[0])) == [s[0]] + WithKey(s[1..], key, key(s[0]));
    }
  }

  lemma WithKeyTail<T>(s: seq<T>, key: T -> int, k: int)
    requires s != []
    ensures WithKey(s[1..], key, k) == if key(s[0]) == k then WithKey(s, key, k)[1..] else WithKey(s, key, k)
  {
  }

  lemma {:induction false} WithKeyMember<T>(s: seq<T>, key: T -> int, k: int, x: T)
    requires x in WithKey(s, key, k)
    ensures x in s && key(x) == k
  {
    if s != [] && (key(s[0]) != k || x != s[0]) {
      WithKeyMember(s[1..], key, k, x);
    }
  }

  /** The head of a sorted sequence has the least key. */
  lemma SortedHeadIsLeast<T>(s: seq<T>, key: T -> int, x: T)
    requires SortedBy(s, key) && x in s
    ensures key(s[0]) <= key(x)
  {
    var i :| 0 <= i < |s| && s[i] == x;
  }

  /** Two sorted sequences with the same key classes start with the same key. */
  lemma HeadKeysAgree<T>(r: seq<T>, t: seq<T>, key: T -> int)
    requires r != [] && t != []
    requires SortedBy(r, key) && SortedBy(t, key)
    requires forall k :: WithKey(r, key, k) == WithKey(t, key, k)
    ensures key(r[0]) == key(t[0])
  {
    var m, n := key(r[0]), key(t[0]);
    WithKeyTail(r, key, m);
    assert r[0] in WithKey(t, key, m);
    WithKeyMember(t, key, m, r[0]);
    SortedHeadIsLeast(t, key, r[0]);
    WithKeyTail(t, key, n);
    assert t[0] in WithKey(r, key, n);
    WithKeyMember(r, key, n, t[0]);
    SortedHeadIsLeast(r, key, t[0]);
  }

  /**
   * Sortedness and stability pin the result down: any sequence ordered by
   * `key` that agrees with `s` on every key class is `SortBy(s, key)`.
   */
  lemma {:induction false} SortedAndStableUnique<T>(r: seq<T>, t: seq<T>, key: T -> int)
    requires SortedBy(r, key) && SortedBy(t, key)
    requires forall k :: WithKey(r, key, k) == WithKey(t, key, k)
    ensures r == t
    decreases |r|
  {
    if r == [] {
      EmptyWithoutKeys(t, key);
    } else if t == [] {
      EmptyWithoutKeys(r, key);
    } else {
      HeadKeysAgree(r, t, key);
      var m := key(r[0]);
      assert r[0] == WithKey(r, key, m)[0] == WithKey(t, key, m)[0] == t[0];
      forall k
        ensures WithKey(r[1..], key, k) == WithKey(t[1..], key, k)
      {
        WithKeyTail(r, key, k);
        WithKeyTail(t, key, k);
      }
      SortedAndStableUnique(r[1..], t[1..], key);
      assert r == [r[0]] + r[1..] && t == [t[0]] + t[1..];
    }
  }

  /** The declarative characterisation of `SortBy`: sorted and stable, and nothing else. */
  lemma SortByUnique<T>(s: seq<T>, r: seq<T>, key: T -> int)
    requires SortedBy(r, key)
    requires forall k :: WithKey(r, key, k) == WithKey(s, key, k)
    ensures r == SortBy(s, key)
  {
    forall k
      ensures WithKey(r, key, k) == WithKey(SortBy(s, key), key, k)
    {
      SortByStable(s, key, k);
    }
    SortedAndStableUnique(r, SortBy(s, key), key);
  }

  lemma MapSorted<A, B>(s: seq<A>, f: A -> B, ka: A -> int, kb: B -> int)
    requires forall a :: kb(f(a)) == ka(a)
    requires SortedBy(s, ka)
    ensures SortedBy(Map(s, f), kb)
  {
  }

  lemma {:induction false} InsertMap<A, B>(x: A, s: seq<A>, f: A -> B, ka: A -> int, kb: B -> int)
    requires forall a :: kb(f(a)) == ka(a)
    requires SortedBy(s, ka) && SortedBy(Map(s, f), kb)
    ensures Map(Insert(x, s, ka), f) == Insert(f(x), Map(s, f), kb)
  {
    if s == [] {
    } else if ka(x) <= ka(s[0]) {
      assert Map([x] + s, f) == [f(x)] + Map(s, f);
    } else {
      var rest := Insert(x, s[1..], ka);
      MapSorted(s[1..], f, ka, kb);
      InsertMap(x, s[1..], f, ka, kb);
      assert Map(s, f)[0] == f(s[0]) && kb(f(s[0])) < kb(f(x));
      assert Map(s, f)[1..] == Map(s[1..], f);
      assert Map([s[0]] + rest, f) == [f(s[0])] + Map(rest, f);
    }
  }

  /**
   * Projecting each element through a key-preserving `f` commutes with sorting:
   * sorting the projections gives the projections of the sorted elements.
   */
  lemma {:induction false} SortByMap<A, B>(s: seq<A>, f: A -> B, ka: A -> int, kb: B -> int)
    requires forall a :: kb(f(a)) == ka(a)
    ensures Map(SortBy(s, ka), f) == SortBy(Map(s, f), kb)
  {
    if s != [] {
      SortByMap(s[1..], f, ka, kb);
      assert Map(s, f)[0] == f(s[0]) && Map(s, f)[1..] == Map(s[1..], f);
      MapSorted(SortBy(s[1..], ka), f, ka, kb);
      InsertMap(s[0], SortBy(s[1..], ka), f, ka, kb);
    }
  }

  /** Sorting what is already sorted changes nothing (a consequence of stability). */
  lemma SortBySorted<T>(s: seq<T>, key: T -> int)
    requires SortedBy(s, key)
    ensures SortBy(s, key) == s
  {
    SortByUnique(s, s, key);
  }
}
