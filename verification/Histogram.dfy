/**
 Latency histograms: each load-generator thread counts its samples in fixed buckets, the aggregator adds the counts up
 and reads percentiles off them. Latencies are exact milliseconds.
 */
module Histogram {
  /** What a clock difference can be as a double. */
  datatype Latency = NotANumber | MinusInfinity | PlusInfinity | Ms(value: real)

  const UPPER_BOUNDS_MS: seq<real> := [
    0.050, 0.100, 0.250, 0.500, 0.750, 1.000, 2.000, 3.000, 5.000, 7.500,
    10.000, 15.000, 25.000, 50.000, 100.000, 250.000, 500.000, 1000.000]

  const BUCKETS := 18

  lemma EighteenBounds()
    ensures |UPPER_BOUNDS_MS| == BUCKETS && UPPER_BOUNDS_MS[BUCKETS - 1] == 1000.0
  {
  }

  lemma BoundsAscend(i: nat, j: nat)
    requires i < j < BUCKETS
    ensures |UPPER_BOUNDS_MS| == BUCKETS && UPPER_BOUNDS_MS[i] < UPPER_BOUNDS_MS[j]
    decreases j - i
  {
    assert j - 1 == 0 || j - 1 == 1 || j - 1 == 2 || j - 1 == 3 || j - 1 == 4 || j - 1 == 5 || j - 1 == 6 || j - 1 == 7
      || j - 1 == 8 || j - 1 == 9 || j - 1 == 10 || j - 1 == 11 || j - 1 == 12 || j - 1 == 13 || j - 1 == 14 || j - 1 == 15
      || j - 1 == 16;
    if i < j - 1 {
      BoundsAscend(i, j - 1);
    }
  }

  /** The latency a sample counts as. */
  function Effective(l: Latency): real {
    match l
    case NotANumber => 0.0
    case MinusInfinity => 0.0
    case PlusInfinity => UPPER_BOUNDS_MS[17]
    case Ms(v) => if v < 0.0 then 0.0 else v
  }

  /** The first bucket whose bound is not below `ms`, or the last bucket. */
  function BucketFrom(ms: real, i: nat): (b: nat)
    requires i < BUCKETS
    ensures i <= b < BUCKETS
    decreases BUCKETS - i
  {
    if ms <= UPPER_BOUNDS_MS[i] || i == BUCKETS - 1 then i else BucketFrom(ms, i + 1)
  }

  lemma BucketStep(ms: real, i: nat)
    requires i < BUCKETS
    ensures |UPPER_BOUNDS_MS| == BUCKETS
    ensures BucketFrom(ms, i)
         == if ms <= UPPER_BOUNDS_MS[i] then i else if i + 1 < BUCKETS then BucketFrom(ms, i + 1) else BUCKETS - 1
  {
    hide UPPER_BOUNDS_MS;
    EighteenBounds();
  }

  lemma {:induction false} BucketFacts(ms: real, i: nat)
    requires i < BUCKETS
    ensures |UPPER_BOUNDS_MS| == BUCKETS
    ensures var b := BucketFrom(ms, i);
      && (forall j :: i <= j < b ==> UPPER_BOUNDS_MS[j] < ms)
      && (ms <= UPPER_BOUNDS_MS[b] || b == BUCKETS - 1)
    decreases BUCKETS - i
  {
    hide UPPER_BOUNDS_MS;
    EighteenBounds();
    if !(ms <= UPPER_BOUNDS_MS[i]) && i < BUCKETS - 1 {
      BucketFacts(ms, i + 1);
    }
  }

  function BucketOf(l: Latency): (b: nat)
    ensures b < BUCKETS
  {
    BucketFrom(Effective(l), 0)
  }

  /** The bucket of a raw sample: the first one whose bound it does not exceed, and the ends for what is no time at all. */
  lemma BucketOfSample(l: Latency)
    ensures |UPPER_BOUNDS_MS| == BUCKETS
    ensures var b := BucketOf(l);
      match l
      case Ms(v) =>
        if v < 0.0 then b == 0
        else (forall j :: 0 <= j < b ==> UPPER_BOUNDS_MS[j] < v) && (v <= UPPER_BOUNDS_MS[b] || b == 17)
      case PlusInfinity => b == 17
      case _ => b == 0
  {
    hide UPPER_BOUNDS_MS, BucketFrom;
    EighteenBounds();
    BucketFacts(Effective(l), 0);
    var b := BucketOf(l);
    if b < 17 {
      BoundsAscend(b, 17);
    }
    if 0 < b {
      FirstBoundIsPositive(b - 1);
    }
  }

  lemma FirstBoundIsPositive(i: nat)
    requires i < BUCKETS
    ensures |UPPER_BOUNDS_MS| == BUCKETS && 0.0 < UPPER_BOUNDS_MS[0] <= UPPER_BOUNDS_MS[i]
  {
    if 0 < i {
      BoundsAscend(0, i);
    }
  }

  /** The eighteen intervals of the table, in milliseconds. */
  lemma BucketsAreIntervals(v: real)
    requires 0.0 <= v
    ensures var b := BucketOf(Ms(v));
      && (b == 0 <==> v <= 0.050) && (b == 1 <==> 0.050 < v <= 0.100) && (b == 2 <==> 0.100 < v <= 0.250)
      && (b == 3 <==> 0.250 < v <= 0.500) && (b == 4 <==> 0.500 < v <= 0.750) && (b == 5 <==> 0.750 < v <= 1.0)
      && (b == 6 <==> 1.0 < v <= 2.0) && (b == 7 <==> 2.0 < v <= 3.0) && (b == 8 <==> 3.0 < v <= 5.0)
      && (b == 9 <==> 5.0 < v <= 7.5) && (b == 10 <==> 7.5 < v <= 10.0) && (b == 11 <==> 10.0 < v <= 15.0)
      && (b == 12 <==> 15.0 < v <= 25.0) && (b == 13 <==> 25.0 < v <= 50.0) && (b == 14 <==> 50.0 < v <= 100.0)
      && (b == 15 <==> 100.0 < v <= 250.0) && (b == 16 <==> 250.0 < v <= 500.0) && (b == 17 <==> 500.0 < v)
  {
    hide BucketOf;
    BucketOfSample(Ms(v));
    var b := BucketOf(Ms(v));
    if 0 < b {
      assert UPPER_BOUNDS_MS[b - 1] < v;
    }
  }

  /** Larger samples never fall into earlier buckets. */
  lemma BucketsFollowLatency(x: Latency, y: Latency)
    requires Effective(x) <= Effective(y)
    ensures BucketOf(x) <= BucketOf(y)
  {
    hide UPPER_BOUNDS_MS, Effective, BucketFrom;
    BucketFacts(Effective(x), 0);
    BucketFacts(Effective(y), 0);
  }

  // ----- histograms as values -----

  function Zeros(n: nat): (z: seq<int>)
    ensures |z| == n && forall i :: 0 <= i < n ==> z[i] == 0
  {
    seq(n, _ => 0)
  }

  function Bump(h: seq<int>, i: nat): seq<int>
    requires i < |h|
  {
    h[i := h[i] + 1]
  }

  function HistogramOf(xs: seq<Latency>): (h: seq<int>)
    ensures |h| == BUCKETS
  {
    if xs == [] then Zeros(BUCKETS) else Bump(HistogramOf(xs[..|xs| - 1]), BucketOf(xs[|xs| - 1]))
  }

  function At(h: seq<int>, i: nat): int {
    if i < |h| then h[i] else 0
  }

  /** Bucket by bucket, a missing bucket counting as empty. */
  function Merge(a: seq<int>, b: seq<int>): seq<int> {
    seq(if |a| < |b| then |b| else |a|, i requires 0 <= i => At(a, i) + At(b, i))
  }

  function Prefix(h: seq<int>, n: nat): int {
    if n == 0 then 0 else Prefix(h, n - 1) + At(h, n - 1)
  }

  function Total(h: seq<int>): int {
    Prefix(h, |h|)
  }

  predicate Counts(h: seq<int>) {
    forall i :: 0 <= i < |h| ==> 0 <= h[i]
  }

  lemma {:induction false} PrefixGrows(h: seq<int>, i: nat, j: nat)
    requires Counts(h) && i <= j
    ensures 0 <= Prefix(h, i) <= Prefix(h, j)
  {
    if i < j {
      PrefixGrows(h, i, j - 1);
    } else if 0 < i {
      PrefixGrows(h, i - 1, i - 1);
    }
  }

  // ----- percentiles -----

  /** `ceil(x)`. */
  function Ceil(x: real): int {
    -((-x).Floor)
  }

  /** The exact position, usually between two samples, that the percentile asks for. */
  function Rank(total: int, percentile: real): real {
    total as real * percentile / 100.0
  }

  function Target(total: int, percentile: real): int {
    var t := Ceil(Rank(total, percentile));
    if t < 1 then 1 else t
  }

  /** The running total through bucket `i` reaches `target`. */
  predicate Reaches(h: seq<int>, target: int, i: nat) {
    target <= Prefix(h, i + 1)
  }

  /** The first bucket from `i` on whose running total reaches `target`, or the number of buckets. */
  function FirstFrom(h: seq<int>, target: int, i: nat): (b: nat)
    requires i <= |h|
    ensures i <= b <= |h|
    ensures forall j :: i <= j < b ==> !Reaches(h, target, j)
    ensures b < |h| ==> Reaches(h, target, b)
    decreases |h| - i
  {
    if i == |h| || Reaches(h, target, i) then i else FirstFrom(h, target, i + 1)
  }

  function PercentileIndex(h: seq<int>, percentile: real): int {
    if Total(h) == 0 then -1
    else
      var b := FirstFrom(h, Target(Total(h), percentile), 0);
      if b < |h| then b else |h| - 1
  }

  lemma CeilIsLeast(c: int, x: real)
    ensures Ceil(x) <= c <==> x <= c as real
  {
  }

  lemma RankIsPositive(total: int, p: real)
    requires 0 < total && 0.0 < p
    ensures 0.0 < Rank(total, p)
  {
  }

  /** A running total reaches the target exactly when it reaches the percentage of all samples. */
  lemma TargetIsRank(c: int, total: int, p: real)
    requires 0 < total && 0.0 < p
    ensures Target(total, p) <= c <==> Rank(total, p) <= c as real
  {
    hide Rank, Ceil;
    RankIsPositive(total, p);
    CeilIsLeast(c, Rank(total, p));
    CeilIsLeast(0, Rank(total, p));
  }

  lemma RankWithin(total: int, p: real)
    requires 0 <= total && p <= 100.0
    ensures Rank(total, p) <= total as real
  {
    assert total as real * p <= total as real * 100.0;
  }

  /** A percentile that exists: some samples, and a percentage that asks for one of them. */
  ghost predicate Asks(h: seq<int>, p: real) {
    Counts(h) && 0 < Total(h) && 0.0 < p <= 100.0
  }

  /** The index is the first bucket whose running total is at least the asked-for share. */
  lemma IndexFacts(h: seq<int>, p: real)
    requires Asks(h, p)
    ensures var i := PercentileIndex(h, p);
      && 0 <= i < |h|
      && Prefix(h, i) as real < Rank(Total(h), p) <= Prefix(h, i + 1) as real
  {
    hide Rank, Target, Counts, FirstFrom;
    var t := Target(Total(h), p);
    var b := FirstFrom(h, t, 0);
    RankWithin(Total(h), p);
    RankIsPositive(Total(h), p);
    TargetIsRank(Total(h), Total(h), p);
    assert b == |h| ==> !Reaches(h, t, |h| - 1);
    TargetIsRank(Prefix(h, b + 1), Total(h), p);
    if 0 < b {
      assert !Reaches(h, t, b - 1);
      TargetIsRank(Prefix(h, b), Total(h), p);
    }
  }

  /** In per cent: the buckets up to the index hold at least the asked-for share of all samples, those before it less. */
  lemma IndexIsShare(h: seq<int>, p: real)
    requires Asks(h, p)
    ensures var i := PercentileIndex(h, p);
      && 0 <= i < |h|
      && 100.0 * Prefix(h, i) as real < p * Total(h) as real <= 100.0 * Prefix(h, i + 1) as real
  {
    hide PercentileIndex, Prefix, Total, Counts;
    IndexFacts(h, p);
  }

  /** A percentage that asks for none of the samples finds the first of them, one that asks for more ends in the last bucket. */
  lemma IndexOutside(h: seq<int>, p: real)
    requires Counts(h) && 0 < Total(h)
    ensures p <= 0.0 ==> var i := PercentileIndex(h, p); 0 <= i < |h| && Prefix(h, i) < 1 <= Prefix(h, i + 1)
    ensures 100.0 < p ==> PercentileIndex(h, p) == |h| - 1
  {
    hide Prefix, FirstFrom, Rank, Ceil;
    var n := Total(h);
    var t := Target(n, p);
    var b := FirstFrom(h, t, 0);
    NothingBefore(h);
    if p <= 0.0 {
      RankOutside(n, p);
      CeilIsLeast(0, Rank(n, p));
      assert t == 1;
      assert 0 < b ==> !Reaches(h, t, b - 1);
    }
    if 100.0 < p {
      RankOutside(n, p);
      CeilIsLeast(n, Rank(n, p));
      assert n < t;
      if b < |h| - 1 {
        PrefixGrows(h, b + 1, |h|);
      }
    }
  }

  lemma RankOutside(total: int, p: real)
    requires 0 < total
    ensures p <= 0.0 ==> Rank(total, p) <= 0.0
    ensures 100.0 < p ==> total as real < Rank(total, p)
  {
    if 100.0 < p {
      assert total as real * 100.0 < total as real * p;
    }
  }

  lemma NothingBefore(h: seq<int>)
    ensures Prefix(h, 0) == 0
  {
  }

  function PercentileValue(h: seq<int>, percentile: real): real {
    var i := PercentileIndex(h, percentile);
    if i < 0 then 0.0 else if i < |UPPER_BOUNDS_MS| then UPPER_BOUNDS_MS[i] else UPPER_BOUNDS_MS[|UPPER_BOUNDS_MS| - 1]
  }

  // ----- the source's loops -----

  class HdrLatencyHistogram {
    const buckets: array<int>
    var totalSamples: int

    constructor ()
      ensures buckets.Length == BUCKETS && fresh(buckets)
      ensures buckets[..] == HistogramOf([]) && totalSamples == 0
    {
      buckets := new int[BUCKETS](_ => 0);
      totalSamples := 0;
      new;
      assert buckets[..] == Zeros(BUCKETS);
    }

    method Record(sample: Latency)
      requires buckets.Length == BUCKETS
      modifies `totalSamples, buckets
      ensures buckets[..] == Bump(old(buckets[..]), BucketOf(sample))
      ensures var b := BucketOf(sample);
        match sample
        case Ms(v) =>
          if v < 0.0 then b == 0
          else (forall j :: 0 <= j < b ==> UPPER_BOUNDS_MS[j] < v) && (v <= UPPER_BOUNDS_MS[b] || b == 17)
        case PlusInfinity => b == 17
        case _ => b == 0
      ensures totalSamples == old(totalSamples) + 1
    {
      hide UPPER_BOUNDS_MS, BucketFrom;
      BucketOfSample(sample);
      var ms := match sample
        case NotANumber => 0.0
        case MinusInfinity => 0.0
        case PlusInfinity => UPPER_BOUNDS_MS[17]
        case Ms(v) => if v < 0.0 then 0.0 else v;
      for i := 0 to |UPPER_BOUNDS_MS|
        invariant buckets[..] == old(buckets[..]) && totalSamples == old(totalSamples)
        invariant BucketOf(sample) == if i < BUCKETS then BucketFrom(ms, i) else BUCKETS - 1
      {
        BucketStep(ms, i);
        if ms <= UPPER_BOUNDS_MS[i] {
          buckets[i] := buckets[i] + 1;
          totalSamples := totalSamples + 1;
          return;
        }
      }
      buckets[BUCKETS - 1] := buckets[BUCKETS - 1] + 1;
      totalSamples := totalSamples + 1;
    }

    method Reset()
      modifies `totalSamples, buckets
      ensures buckets[..] == Zeros(buckets.Length) && totalSamples == 0
    {
      for i := 0 to buckets.Length
        invariant forall j :: 0 <= j < i ==> buckets[j] == 0
      {
        buckets[i] := 0;
      }
      totalSamples := 0;
    }
  }

  method MergeHistogram(dst: seq<int>, src: seq<int>) returns (merged: seq<int>)
    ensures merged == Merge(dst, src)
  {
    if |src| == 0 {
      assert Merge(dst, src) == dst;
      return dst;
    }
    merged := dst;
    if |dst| < |src| {
      merged := dst + Zeros(|src| - |dst|);
    }
    ghost var grown := merged;
    for i := 0 to |src|
      invariant |merged| == |grown|
      invariant forall j :: 0 <= j < |merged| ==> merged[j] == At(dst, j) + (if j < i then src[j] else 0)
    {
      merged := merged[i := merged[i] + src[i]];
    }
  }

  method HistogramTotal(histogram: seq<int>) returns (total: int)
    ensures total == Total(histogram)
  {
    total := 0;
    for i := 0 to |histogram|
      invariant total == Prefix(histogram, i)
    {
      total := total + histogram[i];
    }
  }

  method PercentileBucketIndex(histogram: seq<int>, percentile: real) returns (index: int)
    ensures index == PercentileIndex(histogram, percentile)
    ensures Total(histogram) == 0 ==> index == -1
    ensures Asks(histogram, percentile) ==>
      && 0 <= index < |histogram|
      && 100.0 * Prefix(histogram, index) as real < percentile * Total(histogram) as real
         <= 100.0 * Prefix(histogram, index + 1) as real
  {
    hide Ceil, FirstFrom, Rank, Prefix, Counts, Total;
    if Asks(histogram, percentile) {
      IndexIsShare(histogram, percentile);
    }
    var total := HistogramTotal(histogram);
    if total == 0 {
      return -1;
    }
    var target := Ceil(Rank(total, percentile));
    if target < 1 {
      target := 1;
    }
    index := FindBucket(histogram, target);
  }

  /** The loop of `PercentileBucketIndex`. */
  method FindBucket(histogram: seq<int>, target: int) returns (index: int)
    ensures var b := FirstFrom(histogram, target, 0); index == if b < |histogram| then b else |histogram| - 1
  {
    var cumulative := 0;
    for i := 0 to |histogram|
      invariant cumulative == Prefix(histogram, i)
      invariant FirstFrom(histogram, target, 0) == FirstFrom(histogram, target, i)
    {
      cumulative := cumulative + histogram[i];
      if cumulative >= target {
        return i;
      }
    }
    return |histogram| - 1;
  }

  method PercentileMs(histogram: seq<int>, percentile: real) returns (ms: real)
    ensures ms == PercentileValue(histogram, percentile)
    ensures Total(histogram) == 0 ==> ms == 0.0
  {
    var index := PercentileBucketIndex(histogram, percentile);
    if index < 0 {
      return 0.0;
    }
    if index < |UPPER_BOUNDS_MS| {
      return UPPER_BOUNDS_MS[index];
    }
    return UPPER_BOUNDS_MS[|UPPER_BOUNDS_MS| - 1];
  }
}
