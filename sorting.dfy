/** Python's `list.sort(key=...)` on a list of records: a stable sort by a real
    key.  Both the single-route optimiser and the cost model rank their
    candidates with it.  The sort is given here as insertion sort, and the
    lemmas prove what Python promises of it: the result is ordered by key, is a
    permutation of the input, and keeps the input order among equal keys. */
module Sorting {

  /** Non-decreasing by key. */
  ghost predicate SortedBy<T>(s: seq<T>, key: T -> real) {
    forall i, j :: 0 <= i < j < |s| ==> key(s[i]) <= key(s[j])
  }

  /** The elements of `s` whose key is `v`, in their order in `s`. */
  function WithKey<T>(s: seq<T>, key: T -> real, v: real): seq<T> {
    if s == [] then []
    else (if key(s[0]) == v then [s[0]] else []) + WithKey(s[1..], key, v)
  }

  /** Puts `x` in front of the first element whose key is not smaller. */
  function Insert<T>(x: T, s: seq<T>, key: T -> real): seq<T> {
    if s == [] || key(x) <= key(s[0]) then [x] + s
    else [s[0]] + Insert(x, s[1..], key)
  }

  function SortBy<T>(s: seq<T>, key: T -> real): seq<T> {
    if s == [] then [] else Insert(s[0], SortBy(s[1..], key), key)
  }

  lemma {:induction false} InsertElements<T>(x: T, s: seq<T>, key: T -> real)
    ensures multiset(Insert(x, s, key)) == multiset{x} + multiset(s)
    ensures |Insert(x, s, key)| == |s| + 1
    ensures forall y :: y in Insert(x, s, key) ==> y == x || y in s
  {
    if s == [] || key(x) <= key(s[0]) {
    } else {
      InsertElements(x, s[1..], key);
      assert s == [s[0]] + s[1..];
    }
  }

  lemma {:induction false} InsertSorted<T>(x: T, s: seq<T>, key: T -> real)
    requires SortedBy(s, key)
    ensures SortedBy(Insert(x, s, key), key)
  {
    if s == [] || key(x) <= key(s[0]) {
    } else {
      InsertSorted(x, s[1..], key);
      InsertElements(x, s[1..], key);
      var r := Insert(x, s[1..], key);
      forall k | 0 <= k < |r| ensures key(s[0]) <= key(r[k]) {
        assert r[k] in r;
        if r[k] != x {
          var m :| 0 <= m < |s[1..]| && s[1..][m] == r[k];
          assert s[m + 1] == r[k];
        }
      }
    }
  }

  lemma {:induction false} InsertKeepsEqualKeys<T>(x: T, s: seq<T>, key: T -> real, v: real)
    ensures WithKey(Insert(x, s, key), key, v)
         == (if key(x) == v then [x] else []) + WithKey(s, key, v)
  {
    var mine := if key(x) == v then [x] else [];
    if s == [] || key(x) <= key(s[0]) {
      assert ([x] + s)[0] == x && ([x] + s)[1..] == s;
      assert WithKey([x] + s, key, v) == mine + WithKey(s, key, v);
    } else {
      var rest := Insert(x, s[1..], key);
      InsertKeepsEqualKeys(x, s[1..], key, v);
      assert ([s[0]] + rest)[0] == s[0] && ([s[0]] + rest)[1..] == rest;
      var first := if key(s[0]) == v then [s[0]] else [];
      assert WithKey([s[0]] + rest, key, v) == first + (mine + WithKey(s[1..], key, v));
      assert WithKey(s, key, v) == first + WithKey(s[1..], key, v);
      // x and s[0] have different keys, so at most one of them is kept
      assert mine == [] || first == [];
      assert first + (mine + WithKey(s[1..], key, v)) == mine + (first + WithKey(s[1..], key, v));
    }
  }

  /** The sorted list holds exactly the input's elements, ordered by key. */
  lemma {:induction false} SortByOrdersAndPermutes<T>(s: seq<T>, key: T -> real)
    ensures |SortBy(s, key)| == |s|
    ensures SortedBy(SortBy(s, key), key)
    ensures multiset(SortBy(s, key)) == multiset(s)
  {
    if s != [] {
      SortByOrdersAndPermutes(s[1..], key);
      InsertSorted(s[0], SortBy(s[1..], key), key);
      InsertElements(s[0], SortBy(s[1..], key), key);
      assert s == [s[0]] + s[1..];
    }
  }

  /** Stability: among elements with equal keys the input order is kept. */
  lemma {:induction false} SortByIsStable<T>(s: seq<T>, key: T -> real, v: real)
    ensures WithKey(SortBy(s, key), key, v) == WithKey(s, key, v)
  {
    if s != [] {
      SortByIsStable(s[1..], key, v);
      InsertKeepsEqualKeys(s[0], SortBy(s[1..], key), key, v);
    }
  }

  /** The head of a sorted non-empty list has the least key of the input. */
  lemma HeadIsMinimal<T>(s: seq<T>, key: T -> real)
    requires s != []
    ensures SortBy(s, key) != []
    ensures SortBy(s, key)[0] in multiset(s)
    ensures forall x :: x in s ==> key(SortBy(s, key)[0]) <= key(x)
  {
    SortByOrdersAndPermutes(s, key);
    var r := SortBy(s, key);
    assert r[0] in multiset(r);
    forall x | x in s ensures key(r[0]) <= key(x) {
      assert x in multiset(r);
      var m :| 0 <= m < |r| && r[m] == x;
    }
  }
}
