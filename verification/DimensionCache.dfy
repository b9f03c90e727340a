/**
 A family of span metrics: its histograms by key and the cache of each key's dimensions
 (processor/signozspanmetricsprocessor/internal/cache/cache.go; processor.go:561-623, 633-830, 1055-1154,
 1365-1414). The cache is an LRU of bounded size plus the items it evicted, which Get still finds, and
 revives, until they are cleared.
 */
module DimensionCache {
  import opened LatencyHistogram
  import opened Options
  import opened Sums

  type Key = string
  datatype Dims = Dims(service: string, operation: string, rest: string)

  // ---- the cache ----

  /** An LRU of no size is not created. */
  type Size = n: nat | n >= 1 witness 1

  /** recency lists the live keys, the least recently used first. */
  datatype Cache = Cache(size: Size, recency: seq<Key>, live: map<Key, Dims>, evicted: map<Key, Dims>)

  ghost predicate Distinct(keys: seq<Key>) {
    forall i, j :: 0 <= i < j < |keys| ==> keys[i] != keys[j]
  }

  ghost predicate CacheOk(c: Cache) {
    && |c.recency| <= c.size && Distinct(c.recency)
    && forall k :: k in c.recency <==> k in c.live
  }

  function NewCache(size: Size): Cache {
    Cache(size, [], map[], map[])
  }

  /** What is known of a key: live, or evicted and not yet cleared. */
  function Find(c: Cache, k: Key): Option<Dims> {
    if k in c.live then Some(c.live[k]) else if k in c.evicted then Some(c.evicted[k]) else None
  }

  function Without(keys: seq<Key>, k: Key): seq<Key> {
    if keys == [] then []
    else
      var n := |keys| - 1;
      if keys[n] == k then keys[..n] else Without(keys[..n], k) + [keys[n]]
  }

  function Add(c: Cache, k: Key, dims: Dims): Cache {
    if k in c.live then c.(recency := Without(c.recency, k) + [k], live := c.live[k := dims])
    else if |c.recency| < c.size then
      c.(recency := c.recency + [k], live := c.live[k := dims])
    else
      var victim := c.recency[0];
      c.(recency := c.recency[1..] + [k],
         live := (c.live - {victim})[k := dims],
         evicted := if victim in c.live then c.evicted[victim := c.live[victim]] else c.evicted)
  }

  function Get(c: Cache, k: Key): Cache {
    if k in c.live then c.(recency := Without(c.recency, k) + [k])
    else if k in c.evicted then Add(c.(evicted := c.evicted - {k}), k, c.evicted[k])
    else c
  }

  function RemoveEvictedItems(c: Cache): Cache {
    c.(evicted := map[])
  }

  function Purge(c: Cache): Cache {
    c.(recency := [], live := map[], evicted := map[])
  }

  lemma {:induction false} WithoutKey(keys: seq<Key>, k: Key)
    requires Distinct(keys)
    ensures Distinct(Without(keys, k)) && forall x :: x in Without(keys, k) <==> x in keys && x != k
    ensures |Without(keys, k)| == if k in keys then |keys| - 1 else |keys|
  {
    if keys != [] {
      var n := |keys| - 1;
      WithoutKey(keys[..n], k);
      assert keys == keys[..n] + [keys[n]];
      assert keys[n] !in keys[..n] && keys[n] !in Without(keys[..n], k);
    }
  }

  lemma EvictFinds(c: Cache, k: Key, dims: Dims)
    requires CacheOk(c) && k !in c.live && |c.recency| == c.size
    ensures CacheOk(Add(c, k, dims))
    ensures forall x :: Find(Add(c, k, dims), x) == if x == k then Some(dims) else Find(c, x)
  {
    var victim := c.recency[0];
    var d := Add(c, k, dims);
    assert c.recency == [victim] + c.recency[1..];
    assert k !in c.recency && victim !in c.recency[1..] && victim in c.recency;
    forall x ensures x in d.recency <==> x in d.live {
      assert x in c.recency <==> x in c.live;
    }
  }

  /** Adding never forgets a key: whatever has to make room is still found. */
  lemma AddFinds(c: Cache, k: Key, dims: Dims)
    requires CacheOk(c)
    ensures CacheOk(Add(c, k, dims))
    ensures forall x :: Find(Add(c, k, dims), x) == if x == k then Some(dims) else Find(c, x)
  {
    if k in c.live {
      WithoutKey(c.recency, k);
    } else if |c.recency| == c.size {
      EvictFinds(c, k, dims);
    } else {
      assert k !in c.recency;
    }
  }

  lemma GetKeepsEverything(c: Cache, k: Key)
    requires CacheOk(c)
    ensures CacheOk(Get(c, k))
    ensures forall x :: Find(Get(c, k), x) == Find(c, x)
    ensures Find(c, k).Some? ==> k in Get(c, k).live
  {
    WithoutKey(c.recency, k);
    if k !in c.live && k in c.evicted {
      AddFinds(c.(evicted := c.evicted - {k}), k, c.evicted[k]);
    }
  }

  // ---- a family of metrics ----

  datatype Sample = Sample(key: Key, latency: real)
  datatype Point = Point(key: Key, dims: Dims, histogram: Histogram)

  /** pending is history: the samples behind the histograms now in memory. */
  datatype Family = Family(bounds: seq<real>, cache: Cache, histograms: map<Key, Histogram>, pending: seq<Sample>)

  function LatenciesOf(k: Key, samples: seq<Sample>): seq<real> {
    if samples == [] then []
    else
      var n := |samples| - 1;
      var before := LatenciesOf(k, samples[..n]);
      if samples[n].key == k then before + [samples[n].latency] else before
  }

  lemma LatenciesSnoc(k: Key, samples: seq<Sample>, s: Sample)
    ensures LatenciesOf(k, samples + [s])
            == if s.key == k then LatenciesOf(k, samples) + [s.latency] else LatenciesOf(k, samples)
  {
    assert (samples + [s])[..|samples|] == samples;
  }

  /** There is a histogram for exactly the keys with samples, and it is the histogram of those samples. */
  ghost predicate Exact(f: Family, k: Key) {
    && (k in f.histograms <==> LatenciesOf(k, f.pending) != [])
    && (k in f.histograms ==> f.histograms[k] == HistogramOf(f.bounds, LatenciesOf(k, f.pending)))
  }

  ghost predicate FamilyOk(f: Family) {
    && CacheOk(f.cache)
    && (forall k :: k in f.histograms ==> Find(f.cache, k).Some?)
    && (forall k :: Exact(f, k))
  }

  function NewFamily(bounds: seq<real>, size: Size): Family {
    Family(bounds, NewCache(size), map[], [])
  }

  lemma NewFamilyOk(bounds: seq<real>, size: Size)
    ensures FamilyOk(NewFamily(bounds, size))
  {
    assert CacheOk(NewCache(size));
    forall k ensures Exact(NewFamily(bounds, size), k) {
    }
  }

  /** Looks the key up, which refreshes it, and adds its dimensions if it is not known. */
  function Remember(c: Cache, k: Key, dims: Dims): Cache {
    if Find(c, k).Some? then Get(c, k) else Add(c, k, dims)
  }

  function Record(f: Family, k: Key, dims: Dims, latency: real): Family {
    var h := if k in f.histograms then f.histograms[k] else Empty(f.bounds);
    Family(f.bounds, Remember(f.cache, k, dims), f.histograms[k := Observe(f.bounds, h, latency)],
           f.pending + [Sample(k, latency)])
  }

  lemma RememberFinds(c: Cache, k: Key, dims: Dims)
    requires CacheOk(c)
    ensures CacheOk(Remember(c, k, dims)) && Find(Remember(c, k, dims), k).Some?
    ensures forall x :: x != k || Find(c, k).Some? ==> Find(Remember(c, k, dims), x) == Find(c, x)
  {
    if Find(c, k).Some? {
      GetKeepsEverything(c, k);
    } else {
      AddFinds(c, k, dims);
    }
  }

  lemma RecordOk(f: Family, k: Key, dims: Dims, latency: real)
    requires FamilyOk(f)
    ensures FamilyOk(Record(f, k, dims, latency))
  {
    RememberFinds(f.cache, k, dims);
    var g := Record(f, k, dims, latency);
    forall x ensures Exact(g, x) {
      assert Exact(f, x);
      LatenciesSnoc(x, f.pending, Sample(k, latency));
      HistogramSnoc(f.bounds, LatenciesOf(k, f.pending), latency);
    }
  }

  // ---- building the metrics ----

  ghost predicate Enumerates(order: seq<Key>, f: Family) {
    Distinct(order) && forall k :: k in order <==> k in f.histograms
  }

  datatype Collection = Collection(cache: Cache, points: seq<Point>, failed: bool)

  /** One data point for each key in turn, up to the first key whose dimensions are not found. */
  function Collected(f: Family, order: seq<Key>): Collection
    requires forall k :: k in order ==> k in f.histograms
  {
    if order == [] then Collection(f.cache, [], false)
    else
      var n := |order| - 1;
      var k := order[n];
      assert k in order;
      var before := Collected(f, order[..n]);
      if before.failed then before
      else
        match Find(before.cache, k)
        case None => before.(failed := true)
        case Some(dims) => Collection(Get(before.cache, k), before.points + [Point(k, dims, f.histograms[k])], false)
  }

  /** Collecting a sound family never fails and forgets nothing. */
  lemma {:induction false} CollectingNeverFails(f: Family, order: seq<Key>)
    requires FamilyOk(f) && forall k :: k in order ==> k in f.histograms
    ensures var c := Collected(f, order);
            !c.failed && |c.points| == |order| && CacheOk(c.cache) && forall x :: Find(c.cache, x) == Find(f.cache, x)
  {
    if order != [] {
      var n := |order| - 1;
      var k := order[n];
      assert k in order;
      CollectingNeverFails(f, order[..n]);
      var before := Collected(f, order[..n]);
      assert Find(before.cache, k) == Find(f.cache, k);
      GetKeepsEverything(before.cache, k);
    }
  }

  /** Each histogram is emitted with the dimensions cached for its key. */
  lemma {:induction false} CollectedPoints(f: Family, order: seq<Key>, i: nat)
    requires FamilyOk(f) && i < |order| && forall k :: k in order ==> k in f.histograms
    ensures !Collected(f, order).failed && |Collected(f, order).points| == |order| && order[i] in f.histograms
    ensures Collected(f, order).points[i] == Point(order[i], Find(f.cache, order[i]).value, f.histograms[order[i]])
  {
    var n := |order| - 1;
    CollectedNext(f, order);
    if i < n {
      assert forall k :: k in order[..n] ==> k in order;
      CollectedPoints(f, order[..n], i);
    }
  }

  lemma CollectedNext(f: Family, order: seq<Key>)
    requires FamilyOk(f) && order != [] && forall k :: k in order ==> k in f.histograms
    ensures var front, k := order[..|order| - 1], order[|order| - 1];
            && !Collected(f, order).failed && |Collected(f, front).points| == |front| && k in f.histograms
            && Collected(f, order).points
               == Collected(f, front).points + [Point(k, Find(f.cache, k).value, f.histograms[k])]
  {
    var front, k := order[..|order| - 1], order[|order| - 1];
    assert k in order;
    CollectingNeverFails(f, order);
    CollectingNeverFails(f, front);
    assert Find(Collected(f, front).cache, k) == Find(f.cache, k);
  }

  /** After a flush: evicted items are cleared, and the histograms of keys no longer live go with them. */
  function CleanUp(f: Family): Family {
    var gone := f.histograms.Keys - f.cache.live.Keys;
    f.(cache := RemoveEvictedItems(f.cache), histograms := f.histograms - gone,
       pending := Of(f.cache.live.Keys, f.pending))
  }

  function Of(keys: set<Key>, samples: seq<Sample>): seq<Sample> {
    if samples == [] then []
    else
      var n := |samples| - 1;
      var before := Of(keys, samples[..n]);
      if samples[n].key in keys then before + [samples[n]] else before
  }

  lemma {:induction false} LatenciesOfKept(k: Key, keys: set<Key>, samples: seq<Sample>)
    ensures LatenciesOf(k, Of(keys, samples)) == if k in keys then LatenciesOf(k, samples) else []
  {
    if samples != [] {
      var n := |samples| - 1;
      LatenciesOfKept(k, keys, samples[..n]);
      if samples[n].key in keys {
        LatenciesSnoc(k, Of(keys, samples[..n]), samples[n]);
      }
    }
  }

  lemma CleanUpOk(f: Family)
    requires FamilyOk(f)
    ensures FamilyOk(CleanUp(f))
  {
    forall k ensures Exact(CleanUp(f), k) {
      assert Exact(f, k);
      LatenciesOfKept(k, f.cache.live.Keys, f.pending);
    }
  }

  function Reset(f: Family): Family {
    Family(f.bounds, Purge(f.cache), map[], [])
  }

  lemma ResetOk(f: Family)
    requires FamilyOk(f)
    ensures FamilyOk(Reset(f))
  {
  }

  // ---- what the points add up to ----

  function PointCount(p: Point): nat {
    p.histogram.count
  }

  function CountFor(samples: seq<Sample>): Key -> nat {
    (k: Key) => |LatenciesOf(k, samples)|
  }

  lemma {:induction false} OneSampleMore(order: seq<Key>, samples: seq<Sample>, s: Sample)
    requires Distinct(order)
    ensures Sum(CountFor(samples + [s]), order) == Sum(CountFor(samples), order) + if s.key in order then 1 else 0
  {
    if order != [] {
      var n := |order| - 1;
      OneSampleMore(order[..n], samples, s);
      LatenciesSnoc(order[n], samples, s);
      assert order == order[..n] + [order[n]];
    }
  }

  lemma {:induction false} NoSamples(order: seq<Key>)
    ensures Sum(CountFor([]), order) == 0
  {
    if order != [] {
      NoSamples(order[..|order| - 1]);
    }
  }

  lemma {:induction false} KeysCoverSamples(order: seq<Key>, samples: seq<Sample>)
    requires Distinct(order) && forall i :: 0 <= i < |samples| ==> samples[i].key in order
    ensures Sum(CountFor(samples), order) == |samples|
  {
    if samples == [] {
      NoSamples(order);
    } else {
      var n := |samples| - 1;
      KeysCoverSamples(order, samples[..n]);
      OneSampleMore(order, samples[..n], samples[n]);
      assert samples == samples[..n] + [samples[n]];
    }
  }

  lemma {:induction false} SampleHasLatency(samples: seq<Sample>, i: nat)
    requires i < |samples|
    ensures LatenciesOf(samples[i].key, samples) != []
  {
    var n := |samples| - 1;
    if i < n {
      SampleHasLatency(samples[..n], i);
    }
  }

  lemma {:induction false} PointsAreCounts(f: Family, order: seq<Key>, points: seq<Point>)
    requires FamilyOk(f) && |points| == |order|
    requires forall i :: 0 <= i < |order| ==> order[i] in f.histograms && points[i].histogram == f.histograms[order[i]]
    ensures Sum(PointCount, points) == Sum(CountFor(f.pending), order)
  {
    if order != [] {
      var n := |order| - 1;
      PointsAreCounts(f, order[..n], points[..n]);
      assert Exact(f, order[n]);
      BucketsSumToCount(f.bounds, LatenciesOf(order[n], f.pending));
    }
  }

  /** In whatever order the keys come, the counts emitted add up to the samples in memory. */
  lemma EmittedCountsAddUp(f: Family, order: seq<Key>)
    requires FamilyOk(f) && Enumerates(order, f)
    ensures Sum(PointCount, Collected(f, order).points) == |f.pending|
  {
    CollectingNeverFails(f, order);
    forall i | 0 <= i < |order|
      ensures order[i] in f.histograms && Collected(f, order).points[i].histogram == f.histograms[order[i]]
    {
      CollectedPoints(f, order, i);
    }
    PointsAreCounts(f, order, Collected(f, order).points);
    forall i | 0 <= i < |f.pending| ensures f.pending[i].key in order {
      SampleHasLatency(f.pending, i);
      assert Exact(f, f.pending[i].key);
    }
    KeysCoverSamples(order, f.pending);
  }
}
