/**
 Bucket arithmetic and configuration of the time-bucketed set
 (pkg/timebucketedset/config.go and the pure half of time_bucketed_set.go).
 Instants are int64 milliseconds in the source; here they are bounded below as an int64 is
 and not above.
 */
module TimeBuckets {

  /** An identity, opaque to the set: only equality matters. */
  type Id = nat

  type Millis = t: int | t >= -0x8000_0000_0000_0000

  /** Go's integer division truncates toward zero. */
  function TruncDiv(a: int, b: int): int
    requires b > 0
  {
    if a >= 0 then a / b else -((-a) / b)
  }

  function BucketStart(width: int, t: Millis): Millis
    requires width > 0
  {
    TowardZero(width, t);
    TruncDiv(t, width) * width
  }

  lemma TowardZero(width: int, t: int)
    requires width > 0
    ensures t >= 0 ==> 0 <= TruncDiv(t, width) * width <= t < TruncDiv(t, width) * width + width
    ensures t < 0 ==> TruncDiv(t, width) * width - width < t <= TruncDiv(t, width) * width <= 0
  {
    if t >= 0 {
      QuotientBrackets(width, t);
    } else {
      QuotientBrackets(width, -t);
      NegatedProduct((-t) / width, width);
    }
  }

  lemma QuotientBrackets(width: int, a: nat)
    requires width > 0
    ensures 0 <= (a / width) * width <= a < (a / width) * width + width
  {
    assert a == (a / width) * width + a % width;
    MultipleOfPositive(width, a / width);
  }

  lemma NegatedProduct(a: int, b: int)
    ensures (-a) * b == -(a * b)
  {
  }

  ghost predicate Aligned(width: int, start: int) {
    exists k: int :: start == k * width
  }

  /** Truncation moves a start toward zero: below the clock when it is
      non-negative, above it when it is negative. */
  lemma BucketStartBrackets(width: int, t: Millis)
    requires width > 0
    ensures Aligned(width, BucketStart(width, t))
    ensures t >= 0 ==> BucketStart(width, t) <= t < BucketStart(width, t) + width
    ensures t < 0 ==> BucketStart(width, t) - width < t <= BucketStart(width, t)
  {
    TowardZero(width, t);
    assert BucketStart(width, t) == TruncDiv(t, width) * width;
  }

  lemma MultipleOrder(width: int, j: int, k: int)
    requires width > 0
    ensures j <= k <==> j * width <= k * width
  {
    if j <= k {
      MultipleOfPositive(width, k - j);
    } else {
      MultipleOfPositive(width, j - k - 1);
    }
  }

  lemma MultipleOfPositive(width: int, d: nat)
    requires width > 0
    ensures 0 <= d * width
  {
  }

  /** No aligned start lies strictly between two neighbouring buckets. */
  lemma AlignedGap(width: int, start: int, other: int)
    requires width > 0 && Aligned(width, start) && Aligned(width, other)
    requires other < start + width
    ensures other <= start
  {
    var k :| start == k * width;
    var j :| other == j * width;
    assert (k + 1) * width == start + width;
    MultipleOrder(width, k + 1, j);
    MultipleOrder(width, j, k);
  }

  /** For a non-negative clock the bucket of t is the only aligned start within one width below t. */
  lemma BucketStartUnique(width: int, start: int, t: int)
    requires width > 0 && t >= 0 && Aligned(width, start)
    requires start <= t < start + width
    ensures start == BucketStart(width, t)
  {
    BucketStartBrackets(width, t);
    AlignedGap(width, start, BucketStart(width, t));
    AlignedGap(width, BucketStart(width, t), start);
  }

  lemma AlignedNext(width: int, start: int)
    requires Aligned(width, start)
    ensures Aligned(width, start + width)
  {
    var k :| start == k * width;
    assert start + width == (k + 1) * width;
  }

  // ---- pre-write window ----

  /** The slot of an id inside the pre-write window: hash(id) mod preWrite. */
  predicate InPreWriteWindow(width: int, preWrite: int, hash: nat, start: int, t: int)
    requires preWrite > 0
  {
    var current := t - start;
    var preWriteStart := width - preWrite;
    && preWriteStart <= current < width
    && current >= preWriteStart + hash % preWrite
  }

  /** The eligible times of an id are a non-empty suffix of its bucket lying inside the window. */
  lemma EligibleTimesAreASuffix(width: int, preWrite: int, hash: nat, start: int)
    requires 0 < preWrite <= width
    ensures var first := start + width - preWrite + hash % preWrite;
            && start <= start + width - preWrite <= first < start + width
            && forall t: int :: InPreWriteWindow(width, preWrite, hash, start, t) <==> first <= t < start + width
  {
    assert 0 <= hash % preWrite < preWrite;
  }

  // ---- configuration ----

  const NANOS_PER_MILLI: int := 1_000_000
  const NANOS_PER_SECOND: int := 1_000_000_000
  const DEFAULT_MAX_BUCKETS: int := 3
  const DEFAULT_MAX_BUCKET_SIZE: int := 268_435_456
  const MIN_MAX_BUCKET_SIZE: int := 33_554_432

  /** Durations are nanoseconds, as in time.Duration. */
  datatype Config = Config(maxBuckets: int, maxBucketSize: int, preWriteWindow: int) {
    function WithDefaults(): Config {
      Config(
        if maxBuckets == 0 then DEFAULT_MAX_BUCKETS else maxBuckets,
        if maxBucketSize == 0 then DEFAULT_MAX_BUCKET_SIZE else maxBucketSize,
        preWriteWindow)
    }

    function Validate(width: int): Verdict {
      if width <= 0 then BadWidth
      else if maxBuckets < 2 then BadMaxBuckets
      else if maxBucketSize < MIN_MAX_BUCKET_SIZE then BadMaxBucketSize
      else if preWriteWindow < 0 || preWriteWindow >= width then BadPreWrite
      else if 0 < preWriteWindow < NANOS_PER_SECOND then ShortPreWrite
      else Accepted
    }
  }

  datatype Verdict = Accepted | BadWidth | BadMaxBuckets | BadMaxBucketSize | BadPreWrite | ShortPreWrite

  function WholeMillis(nanos: int): int {
    TruncDiv(nanos, NANOS_PER_MILLI)
  }

  /** What New hands on to the set: both durations cut to whole milliseconds.
      A pre-write window stays inside the bucket, is non-zero exactly when configured and then at least a
      second long; the width can still be cut to zero, on which BucketStart would divide. */
  lemma ValidatedConfigInMillis(c: Config, width: int)
    requires c.WithDefaults().Validate(width).Accepted?
    ensures c.WithDefaults().maxBuckets >= 2
    ensures 0 <= WholeMillis(c.preWriteWindow) <= WholeMillis(width)
    ensures WholeMillis(c.preWriteWindow) > 0 <==> c.preWriteWindow > 0
    ensures WholeMillis(c.preWriteWindow) == 0 || WholeMillis(c.preWriteWindow) >= 1000
    ensures WholeMillis(width) > 0 <==> width >= NANOS_PER_MILLI
  {
  }

  /** A validated width under one millisecond exists, so validation alone does not make BucketStart defined. */
  lemma SubMillisecondWidthIsAccepted()
    ensures exists c: Config, width: int :: c.WithDefaults().Validate(width).Accepted? && WholeMillis(width) == 0
  {
    var c := Config(0, 0, 0);
    assert c.WithDefaults().Validate(500_000).Accepted? && WholeMillis(500_000) == 0;
  }

  /** The configuration of the runs in which a pre-write evicts its own bucket is one New accepts. */
  lemma TenSecondBucketsAreAccepted()
    ensures var c := Config(2, 0, 5 * NANOS_PER_SECOND);
            && c.WithDefaults().Validate(10 * NANOS_PER_SECOND).Accepted? && c.WithDefaults().maxBuckets == 2
            && WholeMillis(10 * NANOS_PER_SECOND) == 10000 && WholeMillis(c.preWriteWindow) == 5000
  {
  }
}
