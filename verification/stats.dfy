/** The median of a column, as pandas' `Series.median()` computes it. */
module Stats {
  import opened Seqs
  import opened Sorting

  function Ascending(s: seq<real>): (t: seq<real>)
    ensures forall i, j :: 0 <= i < j < |t| ==> t[i] <= t[j]
    ensures multiset(t) == multiset(s)
    ensures |t| == |s|
  {
    var t := SortBy(s, x => x);
    assert SortedBy(t, x => x);
    t
  }

  lemma MemberInBounds(s: seq<real>, x: real)
    requires x in multiset(s)
    ensures MinOf(s) <= x <= MaxOf(s)
  {
    var i :| 0 <= i < |s| && s[i] == x;
  }

  /** The middle value of the sorted column, or the average of the two middle values when
      the count is even; 0.0 stands in for the NaN of an empty column. */
  function Median(s: seq<real>): (m: real)
    ensures |s| > 0 ==> MinOf(s) <= m <= MaxOf(s)
  {
    if |s| == 0 then 0.0
    else
      var t := Ascending(s);
      var n := |t|;
      var hi, lo := t[n / 2], t[(n - 1) / 2];
      assert hi in multiset(t) && lo in multiset(t);
      MemberInBounds(s, hi);
      MemberInBounds(s, lo);
      if n % 2 == 1 then hi else (lo + hi) / 2.0
  }

  /** The median sits between the two middle entries of the sorted column. */
  lemma MedianBetweenMiddles(s: seq<real>)
    requires |s| > 0
    ensures var t := Ascending(s);
      t[(|s| - 1) / 2] <= Median(s) <= t[|s| / 2]
  {
  }

  function AtMost(m: real): (p: real -> bool)
    ensures forall x :: p(x) == (x <= m)
  {
    x => x <= m
  }

  function AtLeast(m: real): (p: real -> bool)
    ensures forall x :: p(x) == (x >= m)
  {
    x => x >= m
  }

  /** In an ascending column, a value at or above the lower middle entry has at least
      half of the column at or below it. */
  lemma {:induction false} HalfAtMost(t: seq<real>, m: real)
    requires |t| > 0
    requires forall i, j :: 0 <= i < j < |t| ==> t[i] <= t[j]
    requires t[(|t| - 1) / 2] <= m
    ensures 2 * |Filter(t, AtMost(m))| >= |t|
  {
    var below := AtMost(m);
    forall i | 0 <= i < (|t| + 1) / 2
      ensures below(t[i])
    {
      assert t[i] <= t[(|t| - 1) / 2];
    }
    FilterCountSlice(t, below, 0, (|t| + 1) / 2);
  }

  /** In an ascending column, a value at or below the upper middle entry has at least
      half of the column at or above it. */
  lemma {:induction false} HalfAtLeast(t: seq<real>, m: real)
    requires |t| > 0
    requires forall i, j :: 0 <= i < j < |t| ==> t[i] <= t[j]
    requires m <= t[|t| / 2]
    ensures 2 * |Filter(t, AtLeast(m))| >= |t|
  {
    var above := AtLeast(m);
    forall i | |t| / 2 <= i < |t|
      ensures above(t[i])
    {
      assert t[|t| / 2] <= t[i];
    }
    FilterCountSlice(t, above, |t| / 2, |t|);
  }

  /** At least half of the column lies at or below its median. */
  lemma {:induction false} MedianLowerHalf(s: seq<real>)
    requires |s| > 0
    ensures 2 * |Filter(s, AtMost(Median(s)))| >= |s|
  {
    var t := Ascending(s);
    var m := Median(s);
    MedianBetweenMiddles(s);
    HalfAtMost(t, m);
    FilterCountPerm(s, t, AtMost(m));
  }

  /** At least half of the column lies at or above its median. */
  lemma {:induction false} MedianUpperHalf(s: seq<real>)
    requires |s| > 0
    ensures 2 * |Filter(s, AtLeast(Median(s)))| >= |s|
  {
    var t := Ascending(s);
    var m := Median(s);
    MedianBetweenMiddles(s);
    HalfAtLeast(t, m);
    FilterCountPerm(s, t, AtLeast(m));
  }
}
