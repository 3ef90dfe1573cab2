/** Python's `sorted`, `statistics.median`, `min` and `max` over lists of
    reals, as the price aggregation uses them. */
module Stats {

  predicate Sorted(s: seq<real>) {
    forall i, j :: 0 <= i < j < |s| ==> s[i] <= s[j]
  }

  /** Inserts `x` before the first element that is not smaller. */
  function Insert(x: real, s: seq<real>): (r: seq<real>)
    requires Sorted(s)
    ensures Sorted(r)
    ensures multiset(r) == multiset(s) + multiset{x}
    ensures |r| == |s| + 1
  {
    if |s| == 0 then [x]
    else if x <= s[0] then [x] + s
    else
      var tail := Insert(x, s[1..]);
      ConsKeepsOrder(s, x, tail);
      [s[0]] + tail
  }

  /** Putting the head of `s` back in front of the insertion into its tail
      gives a sorted list holding `s` and `x`. */
  lemma ConsKeepsOrder(s: seq<real>, x: real, tail: seq<real>)
    requires Sorted(s) && |s| > 0 && s[0] < x
    requires Sorted(tail) && multiset(tail) == multiset(s[1..]) + multiset{x}
    ensures Sorted([s[0]] + tail)
    ensures multiset([s[0]] + tail) == multiset(s) + multiset{x}
  {
    assert s == [s[0]] + s[1..];
    LowerBoundKept(s[0], tail, multiset(s[1..]) + multiset{x});
  }

  /** A value below every element of a multiset is below every element of a
      list holding that multiset. */
  lemma LowerBoundKept(lo: real, t: seq<real>, m: multiset<real>)
    requires multiset(t) == m
    requires forall y :: y in m ==> lo <= y
    ensures forall k :: 0 <= k < |t| ==> lo <= t[k]
  {
    forall k | 0 <= k < |t|
      ensures lo <= t[k]
    {
      assert t[k] in multiset(t);
    }
  }

  /** `sorted(s)`: the ascending permutation of `s`. */
  function Sort(s: seq<real>): (r: seq<real>)
    ensures Sorted(r)
    ensures multiset(r) == multiset(s)
    ensures |r| == |s|
  {
    if |s| == 0 then []
    else
      assert s == s[..|s| - 1] + [s[|s| - 1]];
      Insert(s[|s| - 1], Sort(s[..|s| - 1]))
  }

  /** `statistics.median(s)`: the middle of the sorted list for an odd count,
      the mean of the two middle elements for an even count. Python raises
      `StatisticsError` on an empty list, hence the precondition. */
  function Median(s: seq<real>): real
    requires |s| > 0
  {
    Middle(Sort(s))
  }

  /** The middle element of a list of odd length, the mean of the two middle
      elements of one of even length. */
  function Middle(t: seq<real>): real
    requires |t| > 0
  {
    var n := |t|;
    if n % 2 == 1 then t[n / 2]
    else (t[n / 2 - 1] + t[n / 2]) / 2.0
  }

  /** The smallest element of a non-empty list. */
  function MinOf(s: seq<real>): (m: real)
    requires |s| > 0
    ensures m in s
    ensures forall i :: 0 <= i < |s| ==> m <= s[i]
  {
    if |s| == 1 then s[0]
    else
      var m' := MinOf(s[1..]);
      assert forall i :: 1 <= i < |s| ==> s[i] == s[1..][i - 1];
      if s[0] <= m' then s[0] else m'
  }

  /** The largest element of a non-empty list. */
  function MaxOf(s: seq<real>): (m: real)
    requires |s| > 0
    ensures m in s
    ensures forall i :: 0 <= i < |s| ==> s[i] <= m
  {
    if |s| == 1 then s[0]
    else
      var m' := MaxOf(s[1..]);
      assert forall i :: 1 <= i < |s| ==> s[i] == s[1..][i - 1];
      if s[0] >= m' then s[0] else m'
  }

  /** Two sorted lists holding the same elements are the same list. */
  lemma {:induction false} SortedUnique(a: seq<real>, b: seq<real>)
    requires Sorted(a) && Sorted(b)
    requires multiset(a) == multiset(b)
    ensures a == b
  {
    SameMultisetSameLength(a, b);
    if |a| > 0 {
      SortedHeadsEqual(a, b);
      TailMultiset(a);
      TailMultiset(b);
      SortedUnique(a[1..], b[1..]);
      assert a == [a[0]] + a[1..];
      assert b == [b[0]] + b[1..];
    }
  }

  lemma SameMultisetSameLength(a: seq<real>, b: seq<real>)
    requires multiset(a) == multiset(b)
    ensures |a| == |b|
  {
    assert |a| == |multiset(a)| && |b| == |multiset(b)|;
  }

  /** Sorted lists with the same elements start with the same, smallest,
      element. */
  lemma SortedHeadsEqual(a: seq<real>, b: seq<real>)
    requires Sorted(a) && Sorted(b)
    requires multiset(a) == multiset(b) && |a| > 0 && |b| > 0
    ensures a[0] == b[0]
  {
    assert a[0] in multiset(b);
    assert b[0] in multiset(a);
    var i :| 0 <= i < |b| && b[i] == a[0];
    var j :| 0 <= j < |a| && a[j] == b[0];
  }

  lemma TailMultiset(a: seq<real>)
    requires |a| > 0
    ensures multiset(a[1..]) == multiset(a) - multiset{a[0]}
  {
    assert a == [a[0]] + a[1..];
  }

  /** Sorting forgets the original order. */
  lemma SortPermutationInvariant(a: seq<real>, b: seq<real>)
    requires multiset(a) == multiset(b)
    ensures Sort(a) == Sort(b)
  {
    SortedUnique(Sort(a), Sort(b));
  }

  /** The median depends only on the multiset of values. */
  lemma MedianPermutationInvariant(a: seq<real>, b: seq<real>)
    requires |a| > 0
    requires multiset(a) == multiset(b)
    ensures |b| > 0
    ensures Median(a) == Median(b)
  {
    SameMultisetSameLength(a, b);
    SortPermutationInvariant(a, b);
    assert Median(a) == Middle(Sort(a));
  }

  /** The median lies between the smallest and the largest element. */
  /** The median is the middle of every sorted rearrangement of the
      list, not only of the one `sorted` builds. */
  lemma MedianOfAnySorting(s: seq<real>)
    requires |s| > 0
    ensures forall t :: Sorted(t) && multiset(t) == multiset(s) ==> |t| > 0 && Median(s) == Middle(t)
  {
    forall t | Sorted(t) && multiset(t) == multiset(s)
      ensures |t| > 0 && Median(s) == Middle(t)
    {
      SortedUnique(Sort(s), t);
    }
  }

  lemma MedianWithinRange(s: seq<real>)
    requires |s| > 0
    ensures MinOf(s) <= Median(s) <= MaxOf(s)
  {
    var t := Sort(s);
    var lo, hi := MinOf(s), MaxOf(s);
    forall k | 0 <= k < |t|
      ensures lo <= t[k] <= hi
    {
      assert t[k] in multiset(s);
      var i :| 0 <= i < |s| && s[i] == t[k];
    }
    MiddleWithin(t, lo, hi);
  }

  lemma MiddleWithin(t: seq<real>, lo: real, hi: real)
    requires |t| > 0
    requires forall k :: 0 <= k < |t| ==> lo <= t[k] <= hi
    ensures lo <= Middle(t) <= hi
  {
    var n := |t|;
    if n % 2 == 0 {
      assert lo <= t[n / 2 - 1] <= hi && lo <= t[n / 2] <= hi;
    }
  }

  /** A one-element list is its own median. */
  lemma MedianOfSingleton(x: real)
    ensures Median([x]) == x
  {
    assert Sort([x]) == Insert(x, Sort([]));
  }

  /** A list of one repeated value has that value as its median. */
  lemma MedianOfConstant(s: seq<real>, c: real)
    requires |s| > 0
    requires forall i :: 0 <= i < |s| ==> s[i] == c
    ensures Median(s) == c
  {
    var t := Sort(s);
    forall k | 0 <= k < |t|
      ensures t[k] == c
    {
      assert t[k] in multiset(s);
    }
  }
}
