/**
 * A stable sort by an integer key. It stands for java.util.List.sort, which Player.java
 * calls with comparators; each comparator used there is encoded as an integer key whose
 * order agrees with it (see the key lemmas next to each use).
 */
module Sorting {

  /** Elements in order of non-decreasing key. */
  ghost predicate SortedBy<T>(s: seq<T>, key: T -> int) {
    forall i, j :: 0 <= i < j < |s| ==> key(s[i]) <= key(s[j])
  }

  /** The elements of s whose key is v, in their order in s. */
  function WithKey<T>(s: seq<T>, key: T -> int, v: int): seq<T> {
    if s == [] then []
    else (if key(s[0]) == v then [s[0]] else []) + WithKey(s[1..], key, v)
  }

  /** Insert x before the first element whose key is at least x's. */
  function InsertBy<T>(x: T, s: seq<T>, key: T -> int): seq<T> {
    if s == [] then [x]
    else if key(x) <= key(s[0]) then [x] + s
    else [s[0]] + InsertBy(x, s[1..], key)
  }

  function SortBy<T>(s: seq<T>, key: T -> int): seq<T> {
    if s == [] then [] else InsertBy(s[0], SortBy(s[1..], key), key)
  }

  lemma {:induction false} InsertByPermutes<T>(x: T, s: seq<T>, key: T -> int)
    ensures multiset(InsertBy(x, s, key)) == multiset{x} + multiset(s)
    ensures |InsertBy(x, s, key)| == |s| + 1
  {
    if s != [] && key(x) > key(s[0]) {
      InsertByPermutes(x, s[1..], key);
      assert s == [s[0]] + s[1..];
    }
  }

  lemma {:induction false} InsertBySorted<T>(x: T, s: seq<T>, key: T -> int)
    requires SortedBy(s, key)
    ensures SortedBy(InsertBy(x, s, key), key)
  {
    if s == [] {
    } else if key(x) <= key(s[0]) {
      SortedCons(x, s, key);
    } else {
      var t := InsertBy(x, s[1..], key);
      assert InsertBy(x, s, key) == [s[0]] + t;
      InsertBySorted(x, s[1..], key);
      InsertByLower(x, s[1..], key, key(s[0]));
      SortedCons(s[0], t, key);
    }
  }

  /** A bound below x and every element of s is a bound below every element of the insertion. */
  lemma {:induction false} InsertByLower<T>(x: T, s: seq<T>, key: T -> int, lo: int)
    requires lo <= key(x) && SortedBy(s, key) && (s != [] ==> lo <= key(s[0]))
    ensures forall k :: 0 <= k < |InsertBy(x, s, key)| ==> lo <= key(InsertBy(x, s, key)[k])
  {
    if s == [] {
    } else if key(x) <= key(s[0]) {
      var r := [x] + s;
      forall k | 0 <= k < |r| ensures lo <= key(r[k]) {
        if k > 0 {
          assert r[k] == s[k - 1];
        }
      }
    } else {
      var t := InsertBy(x, s[1..], key);
      var r := [s[0]] + t;
      assert InsertBy(x, s, key) == r;
      InsertByLower(x, s[1..], key, lo);
      forall k | 0 <= k < |r| ensures lo <= key(r[k]) {
        if k > 0 {
          assert r[k] == t[k - 1];
        }
      }
    }
  }

  /** Putting in front an element no larger than the head of a sorted sequence keeps it sorted. */
  lemma SortedCons<T>(y: T, t: seq<T>, key: T -> int)
    requires SortedBy(t, key) && forall k :: 0 <= k < |t| ==> key(y) <= key(t[k])
    ensures SortedBy([y] + t, key)
  {
    var r := [y] + t;
    forall i, j | 0 <= i < j < |r| ensures key(r[i]) <= key(r[j]) {
      assert r[j] == t[j - 1];
      if i > 0 {
        assert r[i] == t[i - 1];
      }
    }
  }

  lemma WithKeyCons<T>(y: T, t: seq<T>, key: T -> int, v: int)
    ensures WithKey([y] + t, key, v) == (if key(y) == v then [y] else []) + WithKey(t, key, v)
  {
    assert ([y] + t)[1..] == t;
  }

  lemma {:induction false} InsertByWithKey<T>(x: T, s: seq<T>, key: T -> int, v: int)
    ensures WithKey(InsertBy(x, s, key), key, v) == (if key(x) == v then [x] else []) + WithKey(s, key, v)
  {
    if s == [] {
      WithKeyCons(x, s, key, v);
    } else if key(x) <= key(s[0]) {
      WithKeyCons(x, s, key, v);
    } else {
      var t := InsertBy(x, s[1..], key);
      var rest := WithKey(s[1..], key, v);
      assert InsertBy(x, s, key) == [s[0]] + t;
      InsertByWithKey(x, s[1..], key, v);
      WithKeyCons(s[0], t, key, v);
      assert [s[0]] + s[1..] == s;
      WithKeyCons(s[0], s[1..], key, v);
      if key(x) == v {
        assert WithKey(t, key, v) == [x] + rest;
        assert WithKey(s, key, v) == rest;
      } else if key(s[0]) == v {
        assert WithKey(t, key, v) == rest;
        assert WithKey(s, key, v) == [s[0]] + rest;
      } else {
        assert WithKey(t, key, v) == rest;
        assert WithKey(s, key, v) == rest;
      }
    }
  }

  /** SortBy returns a permutation of its input, in key order. */
  lemma SortByPermutesAndSorts<T>(s: seq<T>, key: T -> int)
    ensures multiset(SortBy(s, key)) == multiset(s)
    ensures |SortBy(s, key)| == |s|
    ensures SortedBy(SortBy(s, key), key)
  {
    SortByPermutes(s, key);
    SortBySorted(s, key);
  }

  lemma {:induction false} SortByPermutes<T>(s: seq<T>, key: T -> int)
    ensures multiset(SortBy(s, key)) == multiset(s)
    ensures |SortBy(s, key)| == |s|
  {
    if s != [] {
      SortByPermutes(s[1..], key);
      InsertByPermutes(s[0], SortBy(s[1..], key), key);
      assert s == [s[0]] + s[1..];
    }
  }

  lemma {:induction false} SortBySorted<T>(s: seq<T>, key: T -> int)
    ensures SortedBy(SortBy(s, key), key)
  {
    if s != [] {
      SortBySorted(s[1..], key);
      InsertBySorted(s[0], SortBy(s[1..], key), key);
    }
  }

  /** SortBy is stable: the elements of every key keep their relative order. */
  lemma {:induction false} SortByStable<T>(s: seq<T>, key: T -> int, v: int)
    ensures WithKey(SortBy(s, key), key, v) == WithKey(s, key, v)
  {
    if s != [] {
      SortByStable(s[1..], key, v);
      InsertByWithKey(s[0], SortBy(s[1..], key), key, v);
    }
  }
}
