/** Python's `sorted(xs, key=k, reverse=True)` for keys that are pairs of
    naturals compared as tuples: the result is a permutation of the input,
    ordered non-increasingly by key, and stable (elements with equal keys
    keep their input order, which `reverse=True` preserves in Python).
    Used for the highlight ranking (search.py:97-101) and for ordering the
    groups by size (search.py:131-133). */
module Ranking {

  /** A sort key `(major, minor)`, compared lexicographically like a Python tuple. */
  datatype Rank = Rank(major: nat, minor: nat)

  /** `a > b` on tuples. */
  predicate Above(a: Rank, b: Rank) {
    a.major > b.major || (a.major == b.major && a.minor > b.minor)
  }

  /** No element ranks above one that precedes it. */
  predicate NonIncreasing<T>(s: seq<T>, key: T -> Rank) {
    forall i, j :: 0 <= i < j < |s| ==> !Above(key(s[j]), key(s[i]))
  }

  /** The elements of `s` whose key is exactly `k`, in order. */
  function WithRank<T>(s: seq<T>, key: T -> Rank, k: Rank): (r: seq<T>)
    ensures |r| <= |s|
  {
    if s == [] then []
    else (if key(s[0]) == k then [s[0]] else []) + WithRank(s[1..], key, k)
  }

  /** Inserts `x` before the first element that does not rank above it. */
  function Insert<T(==)>(x: T, s: seq<T>, key: T -> Rank): (r: seq<T>)
    ensures multiset(r) == multiset(s) + multiset{x}
  {
    if s == [] || !Above(key(s[0]), key(x)) then [x] + s
    else
      assert s == [s[0]] + s[1..];
      [s[0]] + Insert(x, s[1..], key)
  }

  lemma {:induction false} InsertKeepsOrder<T>(x: T, s: seq<T>, key: T -> Rank)
    requires NonIncreasing(s, key)
    ensures NonIncreasing(Insert(x, s, key), key)
  {
    if s == [] || !Above(key(s[0]), key(x)) {
    } else {
      var rest := Insert(x, s[1..], key);
      InsertKeepsOrder(x, s[1..], key);
      forall y | y in rest
        ensures !Above(key(y), key(s[0]))
      {
        assert y in multiset(rest);
        if y != x {
          assert y in multiset(s[1..]);
        }
      }
      var r := [s[0]] + rest;
      forall i, j | 0 <= i < j < |r|
        ensures !Above(key(r[j]), key(r[i]))
      {
        if i == 0 {
          assert r[j] in rest;
        } else {
          assert r[i] == rest[i - 1] && r[j] == rest[j - 1];
        }
      }
    }
  }

  /** Stable insertion sort, descending by key. */
  function SortDesc<T(==)>(s: seq<T>, key: T -> Rank): (r: seq<T>)
    ensures multiset(r) == multiset(s)
    ensures NonIncreasing(r, key)
  {
    if s == [] then []
    else
      assert s == [s[0]] + s[1..];
      InsertKeepsOrder(s[0], SortDesc(s[1..], key), key);
      Insert(s[0], SortDesc(s[1..], key), key)
  }

  lemma {:induction false} InsertStable<T>(x: T, s: seq<T>, key: T -> Rank, k: Rank)
    ensures WithRank(Insert(x, s, key), key, k)
         == (if key(x) == k then [x] else []) + WithRank(s, key, k)
  {
    if s == [] || !Above(key(s[0]), key(x)) {
      assert ([x] + s)[1..] == s;
    } else {
      var rest := Insert(x, s[1..], key);
      assert ([s[0]] + rest)[1..] == rest;
      InsertStable(x, s[1..], key, k);
      if key(s[0]) == k {
        assert key(x) != k;
      }
    }
  }

  /** Sorting keeps, for every key, the elements with that key in input order. */
  lemma {:induction false} SortDescStable<T>(s: seq<T>, key: T -> Rank, k: Rank)
    ensures WithRank(SortDesc(s, key), key, k) == WithRank(s, key, k)
  {
    if s != [] {
      InsertStable(s[0], SortDesc(s[1..], key), key, k);
      SortDescStable(s[1..], key, k);
    }
  }

  /** Sorting never changes the length and keeps exactly the same elements. */
  lemma SortDescSameElements<T>(s: seq<T>, key: T -> Rank)
    ensures |SortDesc(s, key)| == |s|
    ensures forall x :: x in SortDesc(s, key) <==> x in s
  {
    var r := SortDesc(s, key);
    assert |multiset(r)| == |multiset(s)|;
    forall x ensures x in r <==> x in s {
      assert x in r <==> x in multiset(r);
      assert x in s <==> x in multiset(s);
    }
  }
}
