/**
 * Median time past.  Source: src/main.h, CBlockIndex::GetMedianTimePast;
 * src/main.cpp, the timestamp check of CBlock::AcceptBlock.
 * A branch is the sequence of its block times, genesis first.
 */
module MedianTime {
  import opened Sorting

  const MEDIAN_TIME_SPAN: nat := 11

  // ----- Sorting -----

  predicate AtMost(a: int, b: int) { a <= b }

  function Sorted(s: seq<int>): (r: seq<int>)
    ensures |r| == |s|
  {
    Sort(s, AtMost)
  }

  /** How many elements are below m. */
  function Below(s: seq<int>, m: int): (n: nat)
    ensures n <= |s|
  {
    if s == [] then 0 else (if s[0] < m then 1 else 0) + Below(s[1..], m)
  }

  lemma {:induction false} InsertBelow(x: int, s: seq<int>, m: int)
    ensures Below(Insert(x, s, AtMost), m) == (if x < m then 1 else 0) + Below(s, m)
    decreases |s|
  {
    if s != [] && x > s[0] { InsertBelow(x, s[1..], m); }
  }

  lemma {:induction false} SortBelow(s: seq<int>, m: int)
    ensures Below(Sort(s, AtMost), m) == Below(s, m)
    decreases |s|
  {
    if s != [] {
      SortBelow(s[1..], m);
      InsertBelow(s[0], Sort(s[1..], AtMost), m);
    }
  }

  /** Sorting orders, keeps the elements and keeps every count. */
  lemma SortedFacts(s: seq<int>)
    ensures Ordered(Sorted(s), AtMost) && multiset(Sorted(s)) == multiset(s)
    ensures forall m :: Below(Sorted(s), m) == Below(s, m)
  {
    hide Below, Sort;
    SortFacts(s, AtMost);
    forall m ensures Below(Sorted(s), m) == Below(s, m) { SortBelow(s, m); }
  }

  /** In an ordered list, position i is at least m exactly when at most i elements are below m. */
  lemma {:induction false} PositionByCount(s: seq<int>, i: nat, m: int)
    requires Ordered(s, AtMost) && i < |s|
    ensures s[i] >= m <==> Below(s, m) <= i
    decreases |s|
  {
    var t := s[1..];
    if s[0] >= m {
      NoneBelow(s, m);
    } else if i > 0 {
      PositionByCount(t, i - 1, m);
    }
  }

  lemma {:induction false} NoneBelow(s: seq<int>, m: int)
    requires forall i :: 0 <= i < |s| ==> s[i] >= m
    ensures Below(s, m) == 0
    decreases |s|
  {
    if s != [] { NoneBelow(s[1..], m); }
  }

  // ----- The median -----

  /** The times of block k and up to ten before it. */
  function Window(times: seq<int>, k: nat): (w: seq<int>)
    requires k < |times|
    ensures 1 <= |w| <= MEDIAN_TIME_SPAN
  {
    times[if k + 1 < MEDIAN_TIME_SPAN then 0 else k + 1 - MEDIAN_TIME_SPAN..k + 1]
  }

  function Median(w: seq<int>): int
    requires w != []
  {
    Sorted(w)[|w| / 2]
  }

  function MedianTimePast(times: seq<int>, k: nat): int
    requires k < |times|
  {
    Median(Window(times, k))
  }

  /** The median is a time of the window with at most half the window below it and less than half above. */
  lemma MedianIsMiddle(w: seq<int>)
    requires w != []
    ensures Median(w) in w
    ensures Below(w, Median(w)) <= |w| / 2 && Below(w, Median(w) + 1) > |w| / 2
  {
    hide Below, Sorted;
    MedianAtLeast(w, Median(w));
    MedianAtLeast(w, Median(w) + 1);
    SortedFacts(w);
    assert Sorted(w)[|w| / 2] in multiset(w);
  }

  lemma MedianAtLeast(w: seq<int>, m: int)
    requires w != []
    ensures Median(w) >= m <==> Below(w, m) <= |w| / 2
  {
    hide Sorted;
    SortedFacts(w);
    PositionByCount(Sorted(w), |w| / 2, m);
  }

  lemma {:induction false} BelowAppend(s: seq<int>, x: int, m: int)
    ensures Below(s + [x], m) == Below(s, m) + if x < m then 1 else 0
    decreases |s|
  {
    if s != [] {
      BelowAppend(s[1..], x, m);
      assert (s + [x])[1..] == s[1..] + [x];
    }
  }

  /** One more block no earlier than the median: the next median is not earlier. */
  lemma MedianStep(times: seq<int>, k: nat)
    requires k + 1 < |times| && times[k + 1] >= MedianTimePast(times, k)
    ensures MedianTimePast(times, k + 1) >= MedianTimePast(times, k)
  {
    hide Median, Below;
    var w, x, m := Window(times, k), times[k + 1], MedianTimePast(times, k);
    var v, next := w + [x], Window(times, k + 1);
    MedianAtLeast(w, m);
    MedianAtLeast(next, m);
    BelowAppend(w, x, m);
    if k + 1 < MEDIAN_TIME_SPAN {
      assert next == v;
    } else {
      assert next == v[1..];
      BelowTail(v, m);
    }
  }

  lemma BelowTail(v: seq<int>, m: int)
    requires v != []
    ensures Below(v[1..], m) <= Below(v, m)
  {
  }

  /** Every block after the genesis block passed the timestamp check. */
  ghost predicate Accepted(times: seq<int>) {
    forall k :: 1 <= k < |times| ==> times[k] > MedianTimePast(times, k - 1)
  }

  /** Median time past never decreases along an accepted branch. */
  lemma {:induction false} MedianNeverDecreases(times: seq<int>, j: nat, k: nat)
    requires Accepted(times) && j <= k < |times|
    ensures MedianTimePast(times, j) <= MedianTimePast(times, k)
    decreases k
  {
    hide MedianTimePast;
    if j < k {
      MedianNeverDecreases(times, j, k - 1);
      assert times[k] > MedianTimePast(times, k - 1);
      MedianStep(times, k - 1);
    }
  }

  /** So every block is later than the median of every block before it. */
  lemma LaterThanEveryMedian(times: seq<int>, j: nat, k: nat)
    requires Accepted(times) && j < k < |times|
    ensures times[k] > MedianTimePast(times, j)
  {
    hide MedianTimePast;
    MedianNeverDecreases(times, j, k - 1);
  }

  // ----- The code -----

  /** Fills the array from its end while walking back, then sorts the used part. */
  method GetMedianTimePast(times: seq<int>, k: nat) returns (median: int)
    requires k < |times|
    ensures median == MedianTimePast(times, k)
  {
    hide Sorted;
    var pmedian := new int[MEDIAN_TIME_SPAN];
    var pbegin, i, index := MEDIAN_TIME_SPAN, 0, k;
    while i < MEDIAN_TIME_SPAN && index >= 0
      invariant 0 <= i <= MEDIAN_TIME_SPAN && pbegin == MEDIAN_TIME_SPAN - i && index == k - i >= -1
      invariant forall a :: pbegin <= a < MEDIAN_TIME_SPAN ==> pmedian[a] == times[k + 1 + a - MEDIAN_TIME_SPAN]
    {
      pbegin := pbegin - 1;
      pmedian[pbegin] := times[index];
      i, index := i + 1, index - 1;
    }
    assert pmedian[pbegin..] == Window(times, k);
    var sorted := Sorted(pmedian[pbegin..]);
    median := sorted[(MEDIAN_TIME_SPAN - pbegin) / 2];
  }
}
