/**
 The explicit-bounds histogram of the span metrics processor
 (processor/signozspanmetricsprocessor/processor.go:1070-1154). Latencies and bounds are reals; a count
 has no upper limit.
 */
module LatencyHistogram {
  import opened Sums

  datatype Histogram = Histogram(count: nat, sum: real, buckets: seq<nat>)

  ghost predicate Ascending(bounds: seq<real>) {
    forall i, j :: 0 <= i < j < |bounds| ==> bounds[i] < bounds[j]
  }

  /** The bucket a binary search between i and j ends in. */
  function Search(bounds: seq<real>, x: real, i: nat, j: nat): (k: nat)
    requires i <= j <= |bounds|
    ensures i <= k <= j
    decreases j - i
  {
    if i == j then i
    else
      var h := (i + j) / 2;
      if bounds[h] >= x then Search(bounds, x, i, h) else Search(bounds, x, h + 1, j)
  }

  function BucketOf(bounds: seq<real>, x: real): (k: nat)
    ensures k <= |bounds|
  {
    Search(bounds, x, 0, |bounds|)
  }

  method SearchFloat64s(bounds: seq<real>, x: real) returns (k: nat)
    ensures k == BucketOf(bounds, x)
    ensures Ascending(bounds) ==> InBucket(bounds, k, x)
  {
    var i, j := 0, |bounds|;
    while i < j
      invariant 0 <= i <= j <= |bounds|
      invariant Search(bounds, x, i, j) == BucketOf(bounds, x)
    {
      var h := (i + j) / 2;
      if bounds[h] < x {
        i := h + 1;
      } else {
        j := h;
      }
    }
    k := i;
    if Ascending(bounds) {
      BucketIsTheInterval(bounds, x);
    }
  }

  /** x lies in (bounds[k - 1], bounds[k]]; the first bucket has no lower bound, the last no upper one. */
  predicate InBucket(bounds: seq<real>, k: nat, x: real) {
    && k <= |bounds|
    && (k > 0 ==> bounds[k - 1] < x)
    && (k < |bounds| ==> x <= bounds[k])
  }

  lemma {:induction false} SearchIsTheInterval(bounds: seq<real>, x: real, i: nat, j: nat)
    requires Ascending(bounds) && i <= j <= |bounds|
    requires i > 0 ==> bounds[i - 1] < x
    requires j < |bounds| ==> x <= bounds[j]
    ensures InBucket(bounds, Search(bounds, x, i, j), x)
    decreases j - i
  {
    if i < j {
      var h := (i + j) / 2;
      if bounds[h] >= x {
        SearchIsTheInterval(bounds, x, i, h);
      } else {
        SearchIsTheInterval(bounds, x, h + 1, j);
      }
    }
  }

  /** With ascending bounds each value has exactly one bucket. */
  lemma BucketIsTheInterval(bounds: seq<real>, x: real)
    requires Ascending(bounds)
    ensures forall k: nat :: InBucket(bounds, k, x) <==> k == BucketOf(bounds, x)
  {
    SearchIsTheInterval(bounds, x, 0, |bounds|);
    assert InBucket(bounds, BucketOf(bounds, x), x);
  }

  // ---- one histogram ----

  function Empty(bounds: seq<real>): Histogram {
    Histogram(0, 0.0, seq(|bounds| + 1, _ => 0))
  }

  /** One value more. A histogram has one bucket more than there are bounds, so the bucket is there. */
  function Observe(bounds: seq<real>, h: Histogram, x: real): Histogram {
    var k := BucketOf(bounds, x);
    Histogram(h.count + 1, h.sum + x, if k < |h.buckets| then h.buckets[k := h.buckets[k] + 1] else h.buckets)
  }

  function HistogramOf(bounds: seq<real>, xs: seq<real>): (h: Histogram)
    ensures |h.buckets| == |bounds| + 1
  {
    if xs == [] then Empty(bounds)
    else Observe(bounds, HistogramOf(bounds, xs[..|xs| - 1]), xs[|xs| - 1])
  }

  lemma HistogramSnoc(bounds: seq<real>, xs: seq<real>, x: real)
    ensures HistogramOf(bounds, xs + [x]) == Observe(bounds, HistogramOf(bounds, xs), x)
  {
    assert (xs + [x])[..|xs|] == xs;
  }

  function Itself(n: nat): nat {
    n
  }

  function Total(xs: seq<real>): real {
    if xs == [] then 0.0 else Total(xs[..|xs| - 1]) + xs[|xs| - 1]
  }

  function InBucketCount(bounds: seq<real>, k: nat): real -> nat {
    (x: real) => if InBucket(bounds, k, x) then 1 else 0
  }

  lemma {:induction false} NoCounts(n: nat)
    ensures Sum(Itself, seq(n, _ => 0)) == 0
  {
    if n > 0 {
      NoCounts(n - 1);
      assert seq(n, _ => 0)[..n - 1] == seq(n - 1, _ => 0);
    }
  }

  /** Whatever the bounds, the buckets add up to the count, which is the number of values seen. */
  lemma {:induction false} BucketsSumToCount(bounds: seq<real>, xs: seq<real>)
    ensures var h := HistogramOf(bounds, xs);
            h.count == |xs| == Sum(Itself, h.buckets) && h.sum == Total(xs)
  {
    if xs == [] {
      NoCounts(|bounds| + 1);
    } else {
      var front, x := xs[..|xs| - 1], xs[|xs| - 1];
      BucketsSumToCount(bounds, front);
      var h := HistogramOf(bounds, front);
      var k := BucketOf(bounds, x);
      SumUpdate(Itself, h.buckets, k, h.buckets[k] + 1);
    }
  }

  /** With ascending bounds bucket k counts exactly the values in (bounds[k - 1], bounds[k]]. */
  lemma {:induction false} BucketsCountTheirInterval(bounds: seq<real>, xs: seq<real>, k: nat)
    requires Ascending(bounds) && k <= |bounds|
    ensures HistogramOf(bounds, xs).buckets[k] == Sum(InBucketCount(bounds, k), xs)
  {
    if xs != [] {
      BucketsCountTheirInterval(bounds, xs[..|xs| - 1], k);
      BucketIsTheInterval(bounds, xs[|xs| - 1]);
    }
  }
}
