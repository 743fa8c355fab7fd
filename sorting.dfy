/** A stable sort by an integer key.

    `Array.prototype.sort` with a comparator of the form `(a, b) => Key(a) - Key(b)`
    orders a list ascending by `Key`, and section 23.1.3.30 of ECMA-262 (2023
    edition) requires that sort to be stable: elements whose keys are equal keep
    their relative order. `SortBy` is a reference stable sort (insertion of each
    element in front of every element with an equal or greater key), and the
    lemmas below show that it is sorted, a permutation, stable, and the only
    sequence with those three properties. */
module Sorting {

  /** `s` is non-decreasing by `key`. */
  predicate Sorted<T>(s: seq<T>, key: T -> int)
  {
    forall i, j :: 0 <= i < j < |s| ==> key(s[i]) <= key(s[j])
  }

  /** The elements of `s` whose key is `k`, in their order in `s`. */
  function WithKey<T>(s: seq<T>, key: T -> int, k: int): seq<T>
  {
    if s == [] then []
    else (if key(s[0]) == k then [s[0]] else []) + WithKey(s[1..], key, k)
  }

  /** Inserts `x` into `t` in front of the first element whose key is not smaller. */
  function Insert<T>(x: T, t: seq<T>, key: T -> int): (r: seq<T>)
    ensures |r| == |t| + 1
  {
    if t == [] then [x]
    else if key(x) <= key(t[0]) then [x] + t
    else
      assert t == [t[0]] + t[1..];
      [t[0]] + Insert(x, t[1..], key)
  }

  /** The stable sort of `s`, ascending by `key`. */
  function SortBy<T>(s: seq<T>, key: T -> int): (r: seq<T>)
    ensures |r| == |s|
    ensures multiset(r) == multiset(s)
  {
    if s == [] then []
    else
      assert s == [s[0]] + s[1..];
      InsertPermutation(s[0], SortBy(s[1..], key), key);
      Insert(s[0], SortBy(s[1..], key), key)
  }

  lemma {:induction false} InsertPermutation<T>(x: T, t: seq<T>, key: T -> int)
    ensures multiset(Insert(x, t, key)) == multiset(t) + multiset{x}
  {
    if t != [] && key(x) > key(t[0]) {
      InsertPermutation(x, t[1..], key);
      assert t == [t[0]] + t[1..];
    }
  }

  lemma SortedCons<T>(a: T, r: seq<T>, key: T -> int)
    requires Sorted(r, key)
    requires r != [] ==> key(a) <= key(r[0])
    ensures Sorted([a] + r, key)
  {
    var s := [a] + r;
    forall i, j | 0 <= i < j < |s| ensures key(s[i]) <= key(s[j]) {
      if i == 0 && j > 1 {
        assert s[j] == r[j - 1] && key(r[0]) <= key(r[j - 1]);
      }
    }
  }

  lemma WithKeyCons<T>(a: T, r: seq<T>, key: T -> int, k: int)
    ensures WithKey([a] + r, key, k) == (if key(a) == k then [a] else []) + WithKey(r, key, k)
  {
    assert ([a] + r)[1..] == r;
  }

  lemma {:induction false} InsertHead<T>(x: T, t: seq<T>, key: T -> int)
    ensures |Insert(x, t, key)| == |t| + 1
    ensures Insert(x, t, key)[0] == x || (t != [] && Insert(x, t, key)[0] == t[0])
  {
    if t != [] && key(x) > key(t[0]) {
      InsertHead(x, t[1..], key);
    }
  }

  lemma {:induction false} InsertSorted<T>(x: T, t: seq<T>, key: T -> int)
    requires Sorted(t, key)
    ensures Sorted(Insert(x, t, key), key)
  {
    if t == [] {
    } else if key(x) <= key(t[0]) {
      SortedCons(x, t, key);
    } else {
      var r := Insert(x, t[1..], key);
      InsertSorted(x, t[1..], key);
      InsertHead(x, t[1..], key);
      if r[0] != x {
        assert key(t[0]) <= key(t[1]);
      }
      SortedCons(t[0], r, key);
    }
  }

  lemma {:induction false} InsertWithKey<T>(x: T, t: seq<T>, key: T -> int, k: int)
    ensures WithKey(Insert(x, t, key), key, k)
         == (if key(x) == k then [x] else []) + WithKey(t, key, k)
  {
    if t == [] {
      WithKeyCons(x, [], key, k);
    } else if key(x) <= key(t[0]) {
      WithKeyCons(x, t, key, k);
    } else {
      var r := Insert(x, t[1..], key);
      var w := WithKey(t[1..], key, k);
      assert Insert(x, t, key) == [t[0]] + r;
      InsertWithKey(x, t[1..], key, k);
      WithKeyCons(t[0], r, key, k);
      assert WithKey(t, key, k) == (if key(t[0]) == k then [t[0]] else []) + w;
      if key(t[0]) == k {
        assert key(x) != k;
        assert WithKey(Insert(x, t, key), key, k) == [t[0]] + w;
      } else {
        assert WithKey(Insert(x, t, key), key, k) == WithKey(r, key, k);
      }
    }
  }

  /** `SortBy` returns the elements of its input, sorted by key. */
  lemma {:induction false} SortBySortedPermutation<T>(s: seq<T>, key: T -> int)
    ensures Sorted(SortBy(s, key), key)
    ensures multiset(SortBy(s, key)) == multiset(s)
    ensures |SortBy(s, key)| == |s|
  {
    if s != [] {
      SortBySortedPermutation(s[1..], key);
      InsertSorted(s[0], SortBy(s[1..], key), key);
      assert s == [s[0]] + s[1..];
    }
    assert |multiset(SortBy(s, key))| == |multiset(s)|;
  }

  /** Stability: the elements with any one key appear in the same order before and after. */
  lemma {:induction false} SortByStable<T>(s: seq<T>, key: T -> int, k: int)
    ensures WithKey(SortBy(s, key), key, k) == WithKey(s, key, k)
  {
    if s != [] {
      SortByStable(s[1..], key, k);
      InsertWithKey(s[0], SortBy(s[1..], key), key, k);
    }
  }

  lemma {:induction false} SortedHeadIsLeast<T>(t: seq<T>, key: T -> int, y: T)
    requires Sorted(t, key) && t != [] && y in t
    ensures key(t[0]) <= key(y)
  {
    var j :| 0 <= j < |t| && t[j] == y;
    if j > 0 { assert key(t[0]) <= key(t[j]); }
  }

  lemma {:induction false} WithKeyMembers<T>(t: seq<T>, key: T -> int, k: int)
    ensures forall y | y in WithKey(t, key, k) :: y in t && key(y) == k
    ensures forall y | y in t && key(y) == k :: y in WithKey(t, key, k)
  {
    if t != [] {
      WithKeyMembers(t[1..], key, k);
      assert t == [t[0]] + t[1..];
    }
  }

  lemma HeadKeyPresent<T>(t: seq<T>, key: T -> int)
    ensures t != [] ==> WithKey(t, key, key(t[0])) != []
  {
  }

  /** Uniqueness: two sorted sequences holding the same elements of each key in the
      same order are equal, so `SortBy(s)` is the one result a stable sort of `s` may
      give, whatever algorithm computes it. */
  lemma {:induction false} StableSortUnique<T>(t: seq<T>, u: seq<T>, key: T -> int)
    requires Sorted(t, key) && Sorted(u, key)
    requires forall k :: WithKey(t, key, k) == WithKey(u, key, k)
    ensures t == u
  {
    if t == [] && u == [] {
    } else if u == [] {
      HeadKeyPresent(t, key);
      assert false;
    } else if t == [] {
      assert false;
    } else {
      var m, n := key(t[0]), key(u[0]);
      WithKeyMembers(t, key, n);
      WithKeyMembers(u, key, m);
      assert t[0] in WithKey(t, key, m);
      assert u[0] in WithKey(u, key, n);
      assert u[0] in WithKey(t, key, n);
      assert t[0] in WithKey(u, key, m);
      SortedHeadIsLeast(t, key, u[0]);
      SortedHeadIsLeast(u, key, t[0]);
      assert m == n;
      assert t[0] == WithKey(t, key, m)[0] == WithKey(u, key, m)[0] == u[0];
      forall k ensures WithKey(t[1..], key, k) == WithKey(u[1..], key, k) {
        var p := if m == k then [t[0]] else [];
        assert WithKey(t, key, k) == p + WithKey(t[1..], key, k);
        assert WithKey(u, key, k) == p + WithKey(u[1..], key, k);
        assert WithKey(t, key, k)[|p|..] == WithKey(t[1..], key, k);
        assert WithKey(u, key, k)[|p|..] == WithKey(u[1..], key, k);
      }
      StableSortUnique(t[1..], u[1..], key);
      assert t == [t[0]] + t[1..] && u == [u[0]] + u[1..];
    }
  }

  /** A stable sort result characterised by ECMA-262's requirements is `SortBy`. */
  lemma SortByIsTheStableSort<T>(s: seq<T>, t: seq<T>, key: T -> int)
    requires Sorted(t, key)
    requires forall k :: WithKey(t, key, k) == WithKey(s, key, k)
    ensures t == SortBy(s, key)
  {
    SortBySortedPermutation(s, key);
    forall k ensures WithKey(t, key, k) == WithKey(SortBy(s, key), key, k) {
      SortByStable(s, key, k);
    }
    StableSortUnique(t, SortBy(s, key), key);
  }
}
