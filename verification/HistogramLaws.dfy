/** What a percentile read off merged histograms says about the samples that were recorded. */
module HistogramLaws {
  import opened Histogram

  // ----- merging -----

  lemma MergeShape(a: seq<int>, b: seq<int>)
    ensures |Merge(a, b)| == if |a| < |b| then |b| else |a|
    ensures forall i: nat :: At(Merge(a, b), i) == At(a, i) + At(b, i)
  {
  }

  lemma SameBuckets(a: seq<int>, b: seq<int>)
    requires |a| == |b| && forall i: nat :: i < |a| ==> At(a, i) == At(b, i)
    ensures a == b
  {
    forall i | 0 <= i < |a| ensures a[i] == b[i] {
      assert At(a, i) == At(b, i);
    }
  }

  lemma BumpAt(h: seq<int>, k: nat, i: nat)
    requires k < |h|
    ensures At(Bump(h, k), i) == At(h, i) + (if i == k then 1 else 0)
  {
  }

  /** Counting separately and adding up is counting together: no sample is lost or moved by the merge. */
  lemma {:induction false} MergeIsConcat(xs: seq<Latency>, ys: seq<Latency>)
    ensures Merge(HistogramOf(xs), HistogramOf(ys)) == HistogramOf(xs + ys)
  {
    hide BucketOf, Merge, At, Bump;
    MergeShape(HistogramOf(xs), HistogramOf(ys));
    if ys == [] {
      assert xs + ys == xs;
      ZerosAt(BUCKETS);
    } else {
      var front, y := ys[..|ys| - 1], ys[|ys| - 1];
      MergeIsConcat(xs, front);
      assert (xs + ys)[..|xs + ys| - 1] == xs + front;
      var k := BucketOf(y);
      MergeShape(HistogramOf(xs), HistogramOf(front));
      forall i: nat ensures At(HistogramOf(xs + ys), i) == At(HistogramOf(xs), i) + At(HistogramOf(ys), i) {
        BumpAt(HistogramOf(front), k, i);
        BumpAt(HistogramOf(xs + front), k, i);
      }
    }
    SameBuckets(Merge(HistogramOf(xs), HistogramOf(ys)), HistogramOf(xs + ys));
  }

  lemma ZerosAt(n: nat)
    ensures forall i: nat :: At(Zeros(n), i) == 0
  {
  }

  lemma MergeCommutes(a: seq<int>, b: seq<int>)
    ensures Merge(a, b) == Merge(b, a)
  {
  }

  lemma MergeAssociates(a: seq<int>, b: seq<int>, c: seq<int>)
    ensures Merge(Merge(a, b), c) == Merge(a, Merge(b, c))
  {
    hide Merge, At;
    MergeShape(a, b);
    MergeShape(b, c);
    MergeShape(Merge(a, b), c);
    MergeShape(a, Merge(b, c));
    SameBuckets(Merge(Merge(a, b), c), Merge(a, Merge(b, c)));
  }

  function Concat(batches: seq<seq<Latency>>): seq<Latency> {
    if batches == [] then [] else Concat(batches[..|batches| - 1]) + batches[|batches| - 1]
  }

  /** The aggregator's histogram after these batches arrived, each counted by a thread of its own. */
  function Aggregated(batches: seq<seq<Latency>>): seq<int> {
    if batches == [] then [] else Merge(Aggregated(batches[..|batches| - 1]), HistogramOf(batches[|batches| - 1]))
  }

  /** However the samples are spread over threads and batches, the aggregate counts all of them. */
  lemma {:induction false} AggregateCountsAll(batches: seq<seq<Latency>>)
    requires batches != []
    ensures Aggregated(batches) == HistogramOf(Concat(batches))
  {
    hide HistogramOf, Merge;
    var front, last := batches[..|batches| - 1], batches[|batches| - 1];
    if front == [] {
      assert [] + last == last;
      MergeIntoNothing(last);
    } else {
      AggregateCountsAll(front);
      MergeIsConcat(Concat(front), last);
    }
  }

  lemma MergeIntoNothing(xs: seq<Latency>)
    ensures Merge([], HistogramOf(xs)) == HistogramOf(xs)
  {
    hide HistogramOf;
  }

  // ----- running totals -----

  lemma {:induction false} PrefixBeyond(h: seq<int>, n: nat)
    requires |h| <= n
    ensures Prefix(h, n) == Total(h)
  {
    if |h| < n {
      PrefixBeyond(h, n - 1);
    }
  }

  lemma {:induction false} PrefixOfMerge(a: seq<int>, b: seq<int>, n: nat)
    ensures Prefix(Merge(a, b), n) == Prefix(a, n) + Prefix(b, n)
  {
    hide Merge, At;
    MergeShape(a, b);
    if 0 < n {
      PrefixOfMerge(a, b, n - 1);
    }
  }

  lemma TotalOfMerge(a: seq<int>, b: seq<int>)
    ensures Total(Merge(a, b)) == Total(a) + Total(b)
  {
    hide Merge, Prefix;
    MergeShape(a, b);
    var n := |Merge(a, b)|;
    PrefixOfMerge(a, b, n);
    PrefixBeyond(a, n);
    PrefixBeyond(b, n);
  }

  lemma MergeKeepsCounts(a: seq<int>, b: seq<int>)
    requires Counts(a) && Counts(b)
    ensures Counts(Merge(a, b))
  {
  }

  // ----- where the percentile falls -----

  lemma RankGrows(total: int, p: real, q: real)
    requires 0 <= total && p <= q
    ensures Rank(total, p) <= Rank(total, q)
  {
    assert total as real * p <= total as real * q;
  }

  lemma RankAdds(m: int, n: int, p: real)
    ensures Rank(m + n, p) == Rank(m, p) + Rank(n, p)
  {
    assert (m + n) as real * p == m as real * p + n as real * p;
  }

  lemma IndexAtMost(h: seq<int>, p: real, i: nat)
    requires Asks(h, p) && Rank(Total(h), p) <= Prefix(h, i + 1) as real
    ensures PercentileIndex(h, p) <= i
  {
    hide Rank, PercentileIndex, Prefix, Total;
    IndexFacts(h, p);
    var k := PercentileIndex(h, p);
    if i < k {
      PrefixGrows(h, i + 1, k);
    }
  }

  lemma IndexAtLeast(h: seq<int>, p: real, i: nat)
    requires Asks(h, p) && (Prefix(h, i) as real) < Rank(Total(h), p)
    ensures i <= PercentileIndex(h, p)
  {
    hide Rank, PercentileIndex, Prefix, Total;
    IndexFacts(h, p);
    var k := PercentileIndex(h, p);
    if k < i {
      PrefixGrows(h, k + 1, i);
    }
  }

  /** A higher percentile is never in an earlier bucket. */
  lemma PercentileGrows(h: seq<int>, p: real, q: real)
    requires Asks(h, p) && Asks(h, q) && p <= q
    ensures PercentileIndex(h, p) <= PercentileIndex(h, q)
  {
    hide Rank, PercentileIndex, Prefix, Total;
    IndexFacts(h, q);
    RankGrows(Total(h), p, q);
    IndexAtMost(h, p, PercentileIndex(h, q));
  }

  /** The percentile of a merge lies between the percentiles of its parts. */
  lemma MergeIsBetween(a: seq<int>, b: seq<int>, p: real)
    requires Asks(a, p) && Asks(b, p) && PercentileIndex(a, p) <= PercentileIndex(b, p)
    ensures PercentileIndex(a, p) <= PercentileIndex(Merge(a, b), p) <= PercentileIndex(b, p)
  {
    hide Rank, PercentileIndex, Prefix, Total, Merge;
    var i, k := PercentileIndex(a, p), PercentileIndex(b, p);
    IndexFacts(a, p);
    IndexFacts(b, p);
    MergeKeepsCounts(a, b);
    TotalOfMerge(a, b);
    RankAdds(Total(a), Total(b), p);
    PrefixOfMerge(a, b, i);
    PrefixGrows(b, i, k);
    IndexAtLeast(Merge(a, b), p, i);
    PrefixOfMerge(a, b, k + 1);
    PrefixGrows(a, i + 1, k + 1);
    IndexAtMost(Merge(a, b), p, k);
  }

  /** Empty buckets at the end change nothing. */
  lemma PaddingChangesNothing(h: seq<int>, n: nat, p: real)
    requires Asks(h, p)
    ensures PercentileIndex(h + Zeros(n), p) == PercentileIndex(h, p)
  {
    hide Rank, PercentileIndex, Prefix, Total;
    var padded := h + Zeros(n);
    PaddedTotals(h, n, |padded|);
    PrefixBeyond(h, |padded|);
    PrefixBeyond(padded, |padded|);
    IndexFacts(h, p);
    var i := PercentileIndex(h, p);
    PaddedTotals(h, n, i);
    PaddedTotals(h, n, i + 1);
    IndexAtLeast(padded, p, i);
    IndexAtMost(padded, p, i);
  }

  lemma {:induction false} PaddedTotals(h: seq<int>, n: nat, i: nat)
    ensures Prefix(h + Zeros(n), i) == Prefix(h, i)
  {
    if 0 < i {
      PaddedTotals(h, n, i - 1);
    }
  }

  // ----- the sample behind the percentile -----

  function Below(xs: seq<Latency>, v: real): nat {
    if xs == [] then 0 else Below(xs[..|xs| - 1], v) + (if Effective(xs[|xs| - 1]) < v then 1 else 0)
  }

  function UpTo(xs: seq<Latency>, v: real): nat {
    if xs == [] then 0 else UpTo(xs[..|xs| - 1], v) + (if Effective(xs[|xs| - 1]) <= v then 1 else 0)
  }

  /** `x` is the k-th smallest sample, counting from 1. */
  ghost predicate Ranked(xs: seq<Latency>, k: int, x: Latency) {
    x in xs && Below(xs, Effective(x)) < k <= UpTo(xs, Effective(x))
  }

  function Earlier(xs: seq<Latency>, b: nat): nat {
    if xs == [] then 0 else Earlier(xs[..|xs| - 1], b) + (if BucketOf(xs[|xs| - 1]) < b then 1 else 0)
  }

  lemma {:induction false} PrefixOfBump(h: seq<int>, k: nat, n: nat)
    requires k < |h|
    ensures Prefix(Bump(h, k), n) == Prefix(h, n) + (if k < n then 1 else 0)
  {
    hide At, Bump;
    if 0 < n {
      PrefixOfBump(h, k, n - 1);
      BumpAt(h, k, n - 1);
    }
  }

  lemma {:induction false} ZeroTotals(n: nat, i: nat)
    ensures Prefix(Zeros(n), i) == 0
  {
    if 0 < i {
      ZeroTotals(n, i - 1);
    }
  }

  /** The running total before bucket `b` is the number of samples in earlier buckets. */
  lemma {:induction false} PrefixCountsSamples(xs: seq<Latency>, b: nat)
    ensures Prefix(HistogramOf(xs), b) == Earlier(xs, b)
  {
    hide Bump, Prefix, BucketOf;
    if xs == [] {
      ZeroTotals(BUCKETS, b);
    } else {
      PrefixCountsSamples(xs[..|xs| - 1], b);
      PrefixOfBump(HistogramOf(xs[..|xs| - 1]), BucketOf(xs[|xs| - 1]), b);
    }
  }

  lemma {:induction false} BucketsBoundCounts(xs: seq<Latency>, x: Latency)
    ensures Earlier(xs, BucketOf(x)) <= Below(xs, Effective(x))
    ensures UpTo(xs, Effective(x)) <= Earlier(xs, BucketOf(x) + 1)
  {
    hide BucketOf, Effective;
    if xs != [] {
      var y := xs[|xs| - 1];
      BucketsBoundCounts(xs[..|xs| - 1], x);
      if Effective(x) <= Effective(y) {
        BucketsFollowLatency(x, y);
      }
      if Effective(y) <= Effective(x) {
        BucketsFollowLatency(y, x);
      }
    }
  }

  lemma {:induction false} HistogramFacts(xs: seq<Latency>)
    ensures Counts(HistogramOf(xs)) && Total(HistogramOf(xs)) == |xs|
  {
    hide BucketOf, Prefix;
    if xs == [] {
      ZeroTotals(BUCKETS, BUCKETS);
    } else {
      HistogramFacts(xs[..|xs| - 1]);
      PrefixOfBump(HistogramOf(xs[..|xs| - 1]), BucketOf(xs[|xs| - 1]), BUCKETS);
    }
  }

  lemma FirstIsUnique(h: seq<int>, target: int, b: nat)
    requires Counts(h) && b < |h| && Prefix(h, b) < target <= Prefix(h, b + 1)
    ensures FirstFrom(h, target, 0) == b
  {
    hide Prefix, FirstFrom;
    var f := FirstFrom(h, target, 0);
    if f < b {
      PrefixGrows(h, f + 1, b);
    } else {
      assert Reaches(h, target, b);
    }
  }

  lemma TargetIs(n: nat, p: real, k: int)
    requires 0 < k && 100.0 * (k - 1) as real < p * n as real <= 100.0 * k as real
    ensures Target(n, p) == k
  {
  }

  lemma RankedBucket(xs: seq<Latency>, p: real, k: int, x: Latency)
    requires Target(|xs|, p) == k && Ranked(xs, k, x)
    ensures PercentileIndex(HistogramOf(xs), p) == BucketOf(x)
  {
    hide Target, FirstFrom, BucketOf, HistogramOf, Earlier, Prefix, Effective;
    var h := HistogramOf(xs);
    HistogramFacts(xs);
    PrefixCountsSamples(xs, BucketOf(x));
    PrefixCountsSamples(xs, BucketOf(x) + 1);
    BucketsBoundCounts(xs, x);
    FirstIsUnique(h, k, BucketOf(x));
  }

  /**
   Bucketing commutes with percentiles: where the percentage asks for the k-th smallest sample, the reported bucket is the
   bucket of that sample.
   */
  lemma PercentileIsNearestRank(xs: seq<Latency>, p: real, k: int, x: Latency)
    requires 100.0 * (k - 1) as real < p * |xs| as real <= 100.0 * k as real && Ranked(xs, k, x)
    ensures PercentileIndex(HistogramOf(xs), p) == BucketOf(x)
  {
    hide Target, PercentileIndex, BucketOf, HistogramOf, Effective;
    TargetIs(|xs|, p, k);
    RankedBucket(xs, p, k, x);
  }

  /** Times in milliseconds, as samples. */
  function Samples(vs: seq<real>): seq<Latency> {
    seq(|vs|, i requires 0 <= i < |vs| => Ms(vs[i]))
  }

  function Shorter(vs: seq<real>, v: real): set<nat> {
    set i: nat | i < |vs| && vs[i] < v
  }

  function NoLonger(vs: seq<real>, v: real): set<nat> {
    set i: nat | i < |vs| && vs[i] <= v
  }

  lemma ShorterSnoc(vs: seq<real>, u: real, v: real)
    ensures |Shorter(vs + [u], v)| == |Shorter(vs, v)| + (if u < v then 1 else 0)
  {
    var n := |vs|;
    assert n !in Shorter(vs, v);
    assert forall i: nat :: i < n ==> (vs + [u])[i] == vs[i];
    if u < v {
      assert Shorter(vs + [u], v) == Shorter(vs, v) + {n};
    } else {
      assert Shorter(vs + [u], v) == Shorter(vs, v);
    }
  }

  lemma NoLongerSnoc(vs: seq<real>, u: real, v: real)
    ensures |NoLonger(vs + [u], v)| == |NoLonger(vs, v)| + (if u <= v then 1 else 0)
  {
    var n := |vs|;
    assert n !in NoLonger(vs, v);
    assert forall i: nat :: i < n ==> (vs + [u])[i] == vs[i];
    if u <= v {
      assert NoLonger(vs + [u], v) == NoLonger(vs, v) + {n};
    } else {
      assert NoLonger(vs + [u], v) == NoLonger(vs, v);
    }
  }

  lemma CountsSnoc(vs: seq<real>, u: real, v: real)
    requires 0.0 <= u
    ensures Below(Samples(vs + [u]), v) == Below(Samples(vs), v) + (if u < v then 1 else 0)
    ensures UpTo(Samples(vs + [u]), v) == UpTo(Samples(vs), v) + (if u <= v then 1 else 0)
  {
    var xs := Samples(vs + [u]);
    assert xs[..|vs|] == Samples(vs) && xs[|vs|] == Ms(u);
  }

  lemma {:induction false} CountsAreSizes(vs: seq<real>, v: real)
    requires forall u :: u in vs ==> 0.0 <= u
    ensures Below(Samples(vs), v) == |Shorter(vs, v)| && UpTo(Samples(vs), v) == |NoLonger(vs, v)|
  {
    if vs == [] {
      assert Samples(vs) == [] && Shorter(vs, v) == {} && NoLonger(vs, v) == {};
    } else {
      hide Below, UpTo, Samples, Shorter, NoLonger;
      var front, u := vs[..|vs| - 1], vs[|vs| - 1];
      assert vs == front + [u] && u in vs && forall w :: w in front ==> w in vs;
      CountsAreSizes(front, v);
      ShorterSnoc(front, u, v);
      NoLongerSnoc(front, u, v);
      CountsSnoc(front, u, v);
    }
  }

  /**
   In plain times: with fewer than k of them below `v`, at least k not above it and k the rank the percentage asks for, the
   reported value is the least bound not below `v`, or beyond the table its last bound.
   */
  lemma ReportedValue(vs: seq<real>, p: real, k: int, v: real)
    requires (forall u :: u in vs ==> 0.0 <= u) && v in vs
    requires |Shorter(vs, v)| < k <= |NoLonger(vs, v)|
    requires 100.0 * (k - 1) as real < p * |vs| as real <= 100.0 * k as real
    ensures var r := PercentileValue(HistogramOf(Samples(vs)), p);
      && r in UPPER_BOUNDS_MS
      && (v <= r <==> v <= 1000.0)
      && (forall i :: 0 <= i < |UPPER_BOUNDS_MS| && v <= UPPER_BOUNDS_MS[i] ==> r <= UPPER_BOUNDS_MS[i])
      && (1000.0 < v ==> r == 1000.0)
  {
    hide PercentileIndex, HistogramOf, Below, UpTo, UPPER_BOUNDS_MS;
    var xs := Samples(vs);
    var n :| 0 <= n < |vs| && vs[n] == v;
    assert xs[n] == Ms(v);
    CountsAreSizes(vs, v);
    PercentileIsNearestRank(xs, p, k, Ms(v));
    EighteenBounds();
    BoundIsLeast(Ms(v));
  }

  lemma BoundIsLeast(x: Latency)
    ensures |UPPER_BOUNDS_MS| == BUCKETS
    ensures var v := UPPER_BOUNDS_MS[BucketOf(x)];
      && (Effective(x) <= v <==> Effective(x) <= 1000.0)
      && (forall i :: 0 <= i < BUCKETS && Effective(x) <= UPPER_BOUNDS_MS[i] ==> v <= UPPER_BOUNDS_MS[i])
      && (1000.0 < Effective(x) ==> v == 1000.0)
  {
    hide Effective, UPPER_BOUNDS_MS, BucketFrom;
    EighteenBounds();
    BucketFacts(Effective(x), 0);
    var b := BucketOf(x);
    if b < BUCKETS - 1 {
      BoundsAscend(b, BUCKETS - 1);
    }
    forall i | 0 <= i < BUCKETS && Effective(x) <= UPPER_BOUNDS_MS[i] ensures UPPER_BOUNDS_MS[b] <= UPPER_BOUNDS_MS[i] {
      if b < i {
        BoundsAscend(b, i);
      }
    }
  }

  // ----- there always is such a sample -----

  lemma {:induction false} NearestBelow(xs: seq<Latency>, v: real) returns (y: Latency)
    requires 0 < Below(xs, v)
    ensures y in xs && Effective(y) < v
    ensures forall z :: z in xs && Effective(z) < v ==> Effective(z) <= Effective(y)
  {
    hide Effective;
    var front, last := xs[..|xs| - 1], xs[|xs| - 1];
    assert forall z :: z in xs <==> z in front || z == last;
    if Below(front, v) == 0 {
      y := last;
      NoneBelow(front, v);
    } else {
      y := NearestBelow(front, v);
      if Effective(last) < v && Effective(y) < Effective(last) {
        y := last;
      }
    }
  }

  lemma {:induction false} NoneBelow(xs: seq<Latency>, v: real)
    requires Below(xs, v) == 0
    ensures forall z :: z in xs ==> v <= Effective(z)
  {
    hide Effective;
    if xs != [] {
      NoneBelow(xs[..|xs| - 1], v);
      assert forall z :: z in xs <==> z in xs[..|xs| - 1] || z == xs[|xs| - 1];
    }
  }

  lemma {:induction false} UpToIsBelow(xs: seq<Latency>, u: real, v: real)
    requires forall z :: z in xs ==> (Effective(z) <= u <==> Effective(z) < v)
    ensures UpTo(xs, u) == Below(xs, v)
  {
    hide Effective;
    if xs != [] {
      assert xs[|xs| - 1] in xs && forall z :: z in xs[..|xs| - 1] ==> z in xs;
      UpToIsBelow(xs[..|xs| - 1], u, v);
    }
  }

  lemma {:induction false} SelfCounts(xs: seq<Latency>, y: Latency)
    requires y in xs
    ensures Below(xs, Effective(y)) < UpTo(xs, Effective(y))
  {
    hide Effective;
    var front, last := xs[..|xs| - 1], xs[|xs| - 1];
    if y in front {
      SelfCounts(front, y);
    } else {
      BelowWithin(front, Effective(y));
      assert y == last;
    }
  }

  lemma {:induction false} BelowWithin(xs: seq<Latency>, v: real)
    ensures Below(xs, v) <= UpTo(xs, v) <= |xs|
  {
    hide Effective;
    if xs != [] {
      BelowWithin(xs[..|xs| - 1], v);
    }
  }

  lemma {:induction false} DescendToRank(xs: seq<Latency>, k: int, v: real) returns (x: Latency)
    requires 0 < k <= Below(xs, v)
    ensures Ranked(xs, k, x)
    decreases Below(xs, v)
  {
    hide Effective, Below, UpTo;
    var y := NearestBelow(xs, v);
    UpToIsBelow(xs, Effective(y), v);
    SelfCounts(xs, y);
    if Below(xs, Effective(y)) < k {
      x := y;
    } else {
      x := DescendToRank(xs, k, Effective(y));
    }
  }

  lemma {:induction false} SomethingAbove(xs: seq<Latency>) returns (v: real)
    ensures forall z :: z in xs ==> Effective(z) < v
    ensures Below(xs, v) == |xs|
  {
    hide Effective;
    v := 0.0;
    if xs != [] {
      var u := SomethingAbove(xs[..|xs| - 1]);
      var e := Effective(xs[|xs| - 1]);
      v := if u <= e then e + 1.0 else u;
      AllBelow(xs[..|xs| - 1], u, v);
      assert forall z :: z in xs <==> z in xs[..|xs| - 1] || z == xs[|xs| - 1];
    }
  }

  lemma {:induction false} AllBelow(xs: seq<Latency>, u: real, v: real)
    requires u <= v && Below(xs, u) == |xs|
    ensures Below(xs, v) == |xs|
  {
    hide Effective;
    if xs != [] {
      BelowWithin(xs[..|xs| - 1], u);
      AllBelow(xs[..|xs| - 1], u, v);
    }
  }

  lemma RankAsked(n: nat, p: real) returns (k: int)
    requires 0 < n && 0.0 < p <= 100.0
    ensures 100.0 * (k - 1) as real < p * n as real <= 100.0 * k as real
    ensures 0 < k <= n
  {
    hide Ceil;
    k := Target(n, p);
    RankWithin(n, p);
    TargetIsRank(n, n, p);
    TargetIsRank(k, n, p);
    TargetIsRank(k - 1, n, p);
  }

  /** Every percentage above 0 and up to 100 of some samples asks for one of them. */
  lemma NearestRankExists(xs: seq<Latency>, p: real) returns (k: int, x: Latency)
    requires xs != [] && 0.0 < p <= 100.0
    ensures 100.0 * (k - 1) as real < p * |xs| as real <= 100.0 * k as real && Ranked(xs, k, x)
  {
    hide Below, UpTo, Ranked;
    k := RankAsked(|xs|, p);
    var v := SomethingAbove(xs);
    x := DescendToRank(xs, k, v);
  }
}
