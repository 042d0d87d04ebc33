/** A stable sort by a real-valued key, standing in for Python's `sorted`/`list.sort`
    and pandas' `sort_values`. */
module Sorting {

  /** Keys are non-decreasing along `s`. */
  ghost predicate SortedBy<T>(s: seq<T>, key: T -> real)
  {
    forall i, j :: 0 <= i < j < |s| ==> key(s[i]) <= key(s[j])
  }

  /** Places `x` before the first element whose key is not smaller, so `x` stays ahead of
      every element with an equal key. */
  function Insert<T>(x: T, s: seq<T>, key: T -> real): (r: seq<T>)
    ensures multiset(r) == multiset(s) + multiset{x}
    ensures |r| == |s| + 1
    ensures r[0] == x || (|s| > 0 && r[0] == s[0])
    ensures forall i :: 0 <= i < |r| ==> r[i] == x || r[i] in s
  {
    if |s| == 0 || key(x) <= key(s[0]) then [x] + s
    else
      var t := Insert(x, s[1..], key);
      assert s == [s[0]] + s[1..];
      var r := [s[0]] + t;
      assert forall i :: 1 <= i < |r| ==> r[i] == t[i - 1];
      r
  }

  /** Inserting into a sorted sequence keeps it sorted. */
  lemma {:induction false} InsertSorted<T>(x: T, s: seq<T>, key: T -> real)
    requires SortedBy(s, key)
    ensures SortedBy(Insert(x, s, key), key)
  {
    if |s| > 0 && key(x) > key(s[0]) {
      assert SortedBy(s[1..], key) by {
        assert forall i :: 0 <= i < |s| - 1 ==> s[1..][i] == s[i + 1];
      }
      InsertSorted(x, s[1..], key);
      var t := Insert(x, s[1..], key);
      var r := Insert(x, s, key);
      assert r == [s[0]] + t;
      forall i | 0 <= i < |t|
        ensures key(s[0]) <= key(t[i])
      {
        if t[i] != x {
          var j :| 0 <= j < |s| - 1 && s[1..][j] == t[i];
          assert s[j + 1] == t[i];
        }
      }
      assert forall i :: 1 <= i < |r| ==> r[i] == t[i - 1];
    }
  }

  /** Insertion sort: ascending by `key`, a permutation of `s`. */
  function SortBy<T>(s: seq<T>, key: T -> real): (r: seq<T>)
    ensures SortedBy(r, key)
    ensures multiset(r) == multiset(s)
    ensures |r| == |s|
  {
    if |s| == 0 then []
    else
      assert s == [s[0]] + s[1..];
      InsertSorted(s[0], SortBy(s[1..], key), key);
      Insert(s[0], SortBy(s[1..], key), key)
  }

  /** The elements of `s` whose key is exactly `k`, in order. */
  function WithKey<T>(s: seq<T>, key: T -> real, k: real): seq<T>
  {
    if |s| == 0 then []
    else (if key(s[0]) == k then [s[0]] else []) + WithKey(s[1..], key, k)
  }

  /** Inserting `x` adds it to the elements with its key, in front of them. */
  lemma {:induction false} InsertWithKey<T>(x: T, s: seq<T>, key: T -> real, k: real)
    ensures WithKey(Insert(x, s, key), key, k)
         == (if key(x) == k then [x] else []) + WithKey(s, key, k)
    decreases |s|, 1
  {
    if |s| == 0 || key(x) <= key(s[0]) {
      var r := Insert(x, s, key);
      assert r[0] == x && r[1..] == s;
    } else {
      InsertPastHead(x, s, key, k);
    }
  }

  /** The case where `x` goes past the head of `s`. */
  lemma {:induction false} InsertPastHead<T>(x: T, s: seq<T>, key: T -> real, k: real)
    requires |s| > 0 && key(x) > key(s[0])
    ensures WithKey(Insert(x, s, key), key, k)
         == (if key(x) == k then [x] else []) + WithKey(s, key, k)
    decreases |s|, 0
  {
    var r := Insert(x, s, key);
    var t := Insert(x, s[1..], key);
    InsertWithKey(x, s[1..], key, k);
    assert r[0] == s[0] && r[1..] == t;
    var here := if key(x) == k then [x] else [];
    var first := if key(s[0]) == k then [s[0]] else [];
    assert WithKey(r, key, k) == first + WithKey(t, key, k);
    assert WithKey(s, key, k) == first + WithKey(s[1..], key, k);
    if key(s[0]) == k {
      assert here == [];
    } else {
      assert first == [];
    }
  }

  /** Stability: among elements with equal keys the original order survives the sort. */
  lemma {:induction false} SortIsStable<T>(s: seq<T>, key: T -> real, k: real)
    ensures WithKey(SortBy(s, key), key, k) == WithKey(s, key, k)
  {
    if |s| > 0 {
      SortIsStable(s[1..], key, k);
      InsertWithKey(s[0], SortBy(s[1..], key), key, k);
    }
  }

  /** The index of the first element with the smallest key. */
  function FirstMinIndex<T>(s: seq<T>, key: T -> real): (i: nat)
    requires |s| > 0
    ensures i < |s|
    ensures forall j :: 0 <= j < |s| ==> key(s[i]) <= key(s[j])
    ensures forall j :: 0 <= j < i ==> key(s[j]) > key(s[i])
  {
    if |s| == 1 then 0
    else
      var i := FirstMinIndex(s[1..], key);
      if key(s[0]) <= key(s[1..][i]) then 0 else i + 1
  }

  /** The head of the stable sort is the earliest element with the smallest key. */
  lemma {:induction false} SortHead<T>(s: seq<T>, key: T -> real)
    requires |s| > 0
    ensures SortBy(s, key)[0] == s[FirstMinIndex(s, key)]
  {
    if |s| > 1 {
      SortHead(s[1..], key);
    }
  }
}
