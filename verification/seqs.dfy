/** Sequence helpers standing in for the table operations the analyses use. */
module Seqs {

  /** The elements of `s` satisfying `p`, in their original order (a boolean-mask selection). */
  function Filter<T(!new)>(s: seq<T>, p: T -> bool): (r: seq<T>)
    ensures |r| <= |s|
    ensures forall x :: x in r <==> x in s && p(x)
    ensures (exists x :: x in s && !p(x)) ==> |r| < |s|
  {
    if |s| == 0 then []
    else (if p(s[0]) then [s[0]] else []) + Filter(s[1..], p)
  }

  /** `a` can be obtained from `b` by deleting elements: order is preserved. */
  ghost predicate IsSubseq<T>(a: seq<T>, b: seq<T>)
    decreases |b|
  {
    |a| == 0 || (|b| > 0 && if a[0] == b[0] then IsSubseq(a[1..], b[1..]) else IsSubseq(a, b[1..]))
  }

  /** Filtering keeps the survivors in their original order. */
  lemma {:induction false} FilterIsSubseq<T(!new)>(s: seq<T>, p: T -> bool)
    ensures IsSubseq(Filter(s, p), s)
  {
    if |s| > 0 {
      FilterIsSubseq(s[1..], p);
      var r := Filter(s, p);
      if p(s[0]) {
        assert r[0] == s[0] && r[1..] == Filter(s[1..], p);
      } else {
        assert r == Filter(s[1..], p);
        if |r| > 0 {
          assert r[0] in r;
        }
      }
    }
  }

  /** Filtering keeps each passing value exactly as often as it occurs, and drops the rest. */
  lemma {:induction false} FilterMultiset<T(!new)>(s: seq<T>, p: T -> bool)
    ensures forall x :: multiset(Filter(s, p))[x] == if p(x) then multiset(s)[x] else 0
  {
    if |s| > 0 {
      FilterMultiset(s[1..], p);
      var head: seq<T> := if p(s[0]) then [s[0]] else [];
      assert Filter(s, p) == head + Filter(s[1..], p);
      assert s == [s[0]] + s[1..];
      assert multiset(s) == multiset{s[0]} + multiset(s[1..]);
      assert multiset(Filter(s, p)) == multiset(head) + multiset(Filter(s[1..], p));
    }
  }

  /** The first survivor of a filter is the first element of `s` that passes it. */
  lemma {:induction false} FilterFirst<T(!new)>(s: seq<T>, p: T -> bool, i: int)
    requires 0 <= i < |s| && p(s[i])
    requires forall j :: 0 <= j < i ==> !p(s[j])
    ensures |Filter(s, p)| > 0 && Filter(s, p)[0] == s[i]
  {
    if i > 0 {
      FilterFirst(s[1..], p, i - 1);
    }
  }

  /** Filtering distributes over concatenation. */
  lemma {:induction false} FilterAppend<T(!new)>(a: seq<T>, b: seq<T>, p: T -> bool)
    ensures Filter(a + b, p) == Filter(a, p) + Filter(b, p)
  {
    if |a| > 0 {
      assert (a + b)[1..] == a[1..] + b;
      FilterAppend(a[1..], b, p);
    } else {
      assert a + b == b;
    }
  }

  /** A filter that is stronger than an earlier one subsumes it. */
  lemma {:induction false} FilterFilter<T(!new)>(s: seq<T>, p: T -> bool, q: T -> bool)
    requires forall x :: q(x) ==> p(x)
    ensures Filter(Filter(s, p), q) == Filter(s, q)
  {
    if |s| > 0 {
      FilterFilter(s[1..], p, q);
      var x := Filter(s, p);
      if p(s[0]) {
        assert x[0] == s[0] && x[1..] == Filter(s[1..], p);
      } else {
        assert x == Filter(s[1..], p);
      }
    }
  }

  /** Filters that agree on every element select the same elements. */
  lemma {:induction false} FilterExt<T(!new)>(s: seq<T>, p: T -> bool, q: T -> bool)
    requires forall x :: p(x) == q(x)
    ensures Filter(s, p) == Filter(s, q)
  {
    if |s| > 0 {
      FilterExt(s[1..], p, q);
    }
  }

  /** A filter every element passes changes nothing. */
  lemma {:induction false} FilterAll<T(!new)>(s: seq<T>, p: T -> bool)
    requires forall i :: 0 <= i < |s| ==> p(s[i])
    ensures Filter(s, p) == s
  {
    if |s| > 0 {
      FilterAll(s[1..], p);
    }
  }

  /** Elements passing the filter in a slice of `s` are all counted. */
  lemma {:induction false} FilterCountSlice<T(!new)>(s: seq<T>, p: T -> bool, lo: int, hi: int)
    requires 0 <= lo <= hi <= |s|
    requires forall i :: lo <= i < hi ==> p(s[i])
    ensures |Filter(s, p)| >= hi - lo
  {
    assert s == s[..lo] + s[lo..hi] + s[hi..];
    FilterAppend(s[..lo] + s[lo..hi], s[hi..], p);
    FilterAppend(s[..lo], s[lo..hi], p);
    FilterAll(s[lo..hi], p);
  }

  /** How many elements pass a filter depends only on the multiset of elements. */
  lemma {:induction false} FilterCountPerm<T(!new)>(s: seq<T>, t: seq<T>, p: T -> bool)
    requires multiset(s) == multiset(t)
    ensures |Filter(s, p)| == |Filter(t, p)|
    decreases |s|
  {
    if |s| == 0 {
      assert |t| == |multiset(t)| == 0;
    } else {
      var x := s[0];
      assert x in multiset(t);
      var k :| 0 <= k < |t| && t[k] == x;
      var t' := t[..k] + t[k+1..];
      RemoveAtMultiset(t, k);
      assert s == [x] + s[1..];
      assert multiset(s[1..]) == multiset(s) - multiset{x};
      FilterCountPerm(s[1..], t', p);
      FilterCountRemove(t, k, p);
      FilterAppend([x], s[1..], p);
      assert Filter([x], p) == (if p(x) then [x] else []) + Filter([x][1..], p);
    }
  }

  /** Removing the element at `k` removes one copy of it from the multiset. */
  lemma RemoveAtMultiset<T>(t: seq<T>, k: int)
    requires 0 <= k < |t|
    ensures multiset(t[..k] + t[k+1..]) == multiset(t) - multiset{t[k]}
  {
    assert t == t[..k] + [t[k]] + t[k+1..];
    calc {
      multiset(t);
      multiset(t[..k] + [t[k]] + t[k+1..]);
      multiset(t[..k]) + multiset{t[k]} + multiset(t[k+1..]);
    }
  }

  /** Removing the element at `k` removes it from the filter's count exactly when it passes. */
  lemma FilterCountRemove<T(!new)>(t: seq<T>, k: int, p: T -> bool)
    requires 0 <= k < |t|
    ensures |Filter(t, p)| == |Filter(t[..k] + t[k+1..], p)| + (if p(t[k]) then 1 else 0)
  {
    var x := t[k];
    assert t == t[..k] + [x] + t[k+1..];
    FilterAppend(t[..k] + [x], t[k+1..], p);
    FilterAppend(t[..k], [x], p);
    FilterAppend(t[..k], t[k+1..], p);
    assert Filter([x], p) == (if p(x) then [x] else []) + Filter([x][1..], p);
  }

  /** The sequences `f` gives for the elements of `xs`, concatenated in order. */
  function Flatten<A, B>(xs: seq<A>, f: A -> seq<B>): seq<B>
  {
    if |xs| == 0 then [] else f(xs[0]) + Flatten(xs[1..], f)
  }

  /** A value is in the concatenation exactly when it is in the part of some element. */
  lemma {:induction false} FlattenMember<A, B>(xs: seq<A>, f: A -> seq<B>, y: B)
    ensures y in Flatten(xs, f) <==> exists k :: 0 <= k < |xs| && y in f(xs[k])
  {
    if |xs| > 0 {
      FlattenMember(xs[1..], f, y);
      if y in Flatten(xs[1..], f) {
        var k :| 0 <= k < |xs[1..]| && y in f(xs[1..][k]);
        assert y in f(xs[k + 1]);
      }
      if k :| 0 <= k < |xs| && y in f(xs[k]) && k > 0 {
        assert y in f(xs[1..][k - 1]);
      }
    }
  }

  /** Pairwise distinct elements. */
  ghost predicate Distinct<T>(s: seq<T>)
  {
    forall i, j :: 0 <= i < j < |s| ==> s[i] != s[j]
  }

  /** A sequence is distinct exactly when no element occurs twice in its multiset. */
  lemma {:induction false} DistinctMultiset<T>(s: seq<T>)
    ensures Distinct(s) <==> forall x :: multiset(s)[x] <= 1
  {
    if |s| > 0 {
      var a, t := s[0], s[1..];
      assert s == [a] + t;
      DistinctMultiset(t);
      if Distinct(s) {
        assert Distinct(t) by {
          forall i, j | 0 <= i < j < |t| ensures t[i] != t[j] {
            assert t[i] == s[i + 1] && t[j] == s[j + 1];
          }
        }
        assert a !in t;
        forall x ensures multiset(s)[x] <= 1 {
          assert multiset(s)[x] == multiset{a}[x] + multiset(t)[x];
        }
      }
      if forall x :: multiset(s)[x] <= 1 {
        assert forall x :: multiset(t)[x] <= multiset(s)[x];
        assert multiset(t)[a] == 0 by {
          assert multiset(s)[a] == 1 + multiset(t)[a];
        }
        forall i, j | 0 <= i < j < |s| ensures s[i] != s[j] {
          if i == 0 {
            assert s[j] == t[j - 1] && s[j] in t;
          } else {
            assert s[i] == t[i - 1] && s[j] == t[j - 1];
          }
        }
      }
    }
  }

  /** Reordering a distinct sequence keeps it distinct. */
  lemma DistinctPerm<T>(a: seq<T>, b: seq<T>)
    requires multiset(a) == multiset(b)
    requires Distinct(a)
    ensures Distinct(b)
  {
    DistinctMultiset(a);
    DistinctMultiset(b);
  }

  /** The distinct elements of `s` in order of first appearance, like `Series.unique()`. */
  function Dedup<T(==,!new)>(s: seq<T>): (r: seq<T>)
    ensures Distinct(r)
    ensures forall x :: x in r <==> x in s
    ensures forall x :: multiset(r)[x] == if x in s then 1 else 0
    ensures |r| <= |s|
  {
    var r := DedupFrom(s, []);
    DistinctMultiset(r);
    r
  }

  function DedupFrom<T(==,!new)>(s: seq<T>, acc: seq<T>): (r: seq<T>)
    requires Distinct(acc)
    ensures Distinct(r)
    ensures forall x :: x in r <==> x in s || x in acc
    ensures |r| <= |s| + |acc|
    decreases |s|
  {
    if |s| == 0 then acc
    else if s[0] in acc then DedupFrom(s[1..], acc)
    else DedupFrom(s[1..], acc + [s[0]])
  }

  /** Appending to the input appends to the result exactly when the element is new: the
      result lists each element at its first appearance, in input order. */
  lemma DedupSnoc<T(!new)>(s: seq<T>, x: T)
    ensures Dedup(s + [x]) == if x in s then Dedup(s) else Dedup(s) + [x]
  {
    DedupFromSnoc(s, [], x);
  }

  lemma {:induction false} DedupFromSnoc<T(!new)>(s: seq<T>, acc: seq<T>, x: T)
    requires Distinct(acc)
    ensures DedupFrom(s + [x], acc) == if x in s || x in acc then DedupFrom(s, acc) else DedupFrom(s, acc) + [x]
    decreases |s|
  {
    if |s| == 0 {
      assert s + [x] == [x];
      assert [x][1..] == [];
    } else {
      assert (s + [x])[1..] == s[1..] + [x];
      if s[0] in acc {
        DedupFromSnoc(s[1..], acc, x);
      } else {
        DedupFromSnoc(s[1..], acc + [s[0]], x);
      }
    }
  }

  function Sum(s: seq<real>): real
  {
    if |s| == 0 then 0.0 else s[0] + Sum(s[1..])
  }

  /** Arithmetic mean; the analyses only take it of non-empty columns, 0.0 stands in for NaN. */
  function Mean(s: seq<real>): real
  {
    if |s| == 0 then 0.0 else Sum(s) / (|s| as real)
  }

  function MaxOf(s: seq<real>): (m: real)
    requires |s| > 0
    ensures m in s
    ensures forall i :: 0 <= i < |s| ==> s[i] <= m
  {
    if |s| == 1 then s[0]
    else var t := MaxOf(s[1..]); if s[0] >= t then s[0] else t
  }

  function MinOf(s: seq<real>): (m: real)
    requires |s| > 0
    ensures m in s
    ensures forall i :: 0 <= i < |s| ==> m <= s[i]
  {
    if |s| == 1 then s[0]
    else var t := MinOf(s[1..]); if s[0] <= t then s[0] else t
  }

  lemma {:induction false} SumBounds(s: seq<real>, lo: real, hi: real)
    requires forall i :: 0 <= i < |s| ==> lo <= s[i] <= hi
    ensures (|s| as real) * lo <= Sum(s) <= (|s| as real) * hi
  {
    if |s| > 0 {
      SumBounds(s[1..], lo, hi);
    }
  }

  /** A mean is bounded by any bounds on its elements. */
  lemma {:induction false} MeanBounds(s: seq<real>, lo: real, hi: real)
    requires |s| > 0
    requires forall i :: 0 <= i < |s| ==> lo <= s[i] <= hi
    ensures lo <= Mean(s) <= hi
  {
    var n := |s| as real;
    var total := Sum(s);
    SumBounds(s, lo, hi);
    DivBounds(total, n, lo, hi);
    assert Mean(s) == total / n;
  }

  /** The mean of a column lies between its minimum and maximum. */
  lemma {:induction false} MeanBetweenMinAndMax(s: seq<real>)
    requires |s| > 0
    ensures MinOf(s) <= Mean(s) <= MaxOf(s)
  {
    MeanBounds(s, MinOf(s), MaxOf(s));
  }

  lemma DivBounds(total: real, n: real, lo: real, hi: real)
    requires n > 0.0
    requires n * lo <= total <= n * hi
    ensures lo <= total / n <= hi
  {
  }
}
