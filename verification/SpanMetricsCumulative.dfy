/**
 What a cumulative flush keeps (processor/signozspanmetricsprocessor/processor.go:561-623): nothing is reset, and
 only the histograms of keys that the dimension cache no longer holds live are dropped, which takes more keys than
 the cache has room for.
 */
module SpanMetricsCumulative {
  import opened DimensionCache
  import opened LatencyHistogram
  import opened Options
  import opened SpanMetrics
  import opened Sums

  // ---- the cache evicts only when it is full ----

  ghost predicate CacheTidy(c: Cache) {
    && CacheOk(c)
    && (forall k :: k in c.evicted ==> k !in c.live)
    && (c.evicted != map[] ==> |c.recency| == c.size)
  }

  lemma AddTidy(c: Cache, k: Key, dims: Dims)
    requires CacheTidy(c) && k !in c.evicted
    ensures CacheTidy(Add(c, k, dims)) && Add(c, k, dims).size == c.size
  {
    AddFinds(c, k, dims);
    if k in c.live {
      WithoutKey(c.recency, k);
    } else if |c.recency| == c.size {
      FullAddTidy(c, k, dims);
    }
  }

  lemma FullAddTidy(c: Cache, k: Key, dims: Dims)
    requires CacheTidy(c) && k !in c.evicted && k !in c.live && |c.recency| == c.size
    ensures var d := Add(c, k, dims);
            |d.recency| == c.size && d.size == c.size && forall x :: x in d.evicted ==> x !in d.live
  {
    var victim := c.recency[0];
    assert victim in c.recency;
  }

  lemma GetTidy(c: Cache, k: Key)
    requires CacheTidy(c)
    ensures CacheTidy(Get(c, k)) && Get(c, k).size == c.size
  {
    GetKeepsEverything(c, k);
    if k in c.live {
      WithoutKey(c.recency, k);
    } else if k in c.evicted {
      RevivedTidy(c, k);
    }
  }

  lemma RevivedTidy(c: Cache, k: Key)
    requires CacheTidy(c) && k !in c.live && k in c.evicted
    ensures CacheTidy(Get(c, k)) && Get(c, k).size == c.size
  {
    AddTidy(c.(evicted := c.evicted - {k}), k, c.evicted[k]);
  }

  // ---- a family knows the dimensions of exactly its histograms' keys ----

  ghost predicate Tidy(f: Family) {
    && FamilyOk(f) && CacheTidy(f.cache)
    && forall k :: Find(f.cache, k).Some? ==> k in f.histograms
  }

  lemma NewTidy(bounds: seq<real>, size: Size)
    ensures Tidy(NewFamily(bounds, size))
  {
    NewFamilyOk(bounds, size);
  }

  lemma RecordTidy(f: Family, k: Key, dims: Dims, latency: real)
    requires Tidy(f)
    ensures Tidy(Record(f, k, dims, latency)) && Record(f, k, dims, latency).cache.size == f.cache.size
  {
    RecordOk(f, k, dims, latency);
    RememberFinds(f.cache, k, dims);
    if Find(f.cache, k).Some? {
      GetTidy(f.cache, k);
    } else {
      AddTidy(f.cache, k, dims);
    }
  }

  lemma {:induction false} CollectTidy(f: Family, order: seq<Key>)
    requires Tidy(f) && forall k :: k in order ==> k in f.histograms
    ensures CacheTidy(Collected(f, order).cache) && Collected(f, order).cache.size == f.cache.size
  {
    if order != [] {
      var n := |order| - 1;
      assert order[n] in order;
      CollectTidy(f, order[..n]);
      GetTidy(Collected(f, order[..n]).cache, order[n]);
    }
  }

  // ---- how many keys a family has ----

  function Members(keys: seq<Key>): set<Key> {
    set k | k in keys
  }

  lemma {:induction false} MembersCount(keys: seq<Key>)
    requires Distinct(keys)
    ensures |Members(keys)| == |keys|
  {
    if keys == [] {
      assert Members(keys) == {};
    } else {
      var n := |keys| - 1;
      MembersCount(keys[..n]);
      assert Members(keys) == Members(keys[..n]) + {keys[n]};
      assert keys[n] !in keys[..n];
    }
  }

  lemma KnownKeys(c: Cache, histograms: set<Key>)
    requires CacheTidy(c) && forall k :: k in histograms <==> Find(c, k).Some?
    ensures |histograms| == |c.recency| + |c.evicted| && histograms == c.live.Keys + c.evicted.Keys
  {
    MembersCount(c.recency);
    assert Members(c.recency) == c.live.Keys;
    assert histograms == c.live.Keys + c.evicted.Keys;
    assert |c.live.Keys + c.evicted.Keys| == |c.live.Keys| + |c.evicted.Keys| by {
      assert c.live.Keys !! c.evicted.Keys;
    }
    assert |c.evicted| == |c.evicted.Keys|;
  }

  /** Something has been evicted exactly if there are more keys than the cache has room for. */
  lemma EvictedIffOverfull(c: Cache, histograms: set<Key>)
    requires CacheTidy(c) && forall k :: k in histograms <==> Find(c, k).Some?
    ensures c.evicted == map[] <==> |histograms| <= c.size
    ensures c.evicted == map[] <==> histograms <= c.live.Keys
  {
    KnownKeys(c, histograms);
    if c.evicted != map[] {
      var k :| k in c.evicted;
      assert c.evicted.Keys != {} && |c.evicted| == |c.evicted.Keys|;
      assert k in histograms && k !in c.live;
    }
  }

  // ---- what the clean-up keeps ----

  lemma {:induction false} AllKept(keys: set<Key>, samples: seq<Sample>)
    ensures |Of(keys, samples)| <= |samples|
    ensures |Of(keys, samples)| == |samples| <==> forall i :: 0 <= i < |samples| ==> samples[i].key in keys
    ensures |Of(keys, samples)| == |samples| ==> Of(keys, samples) == samples
  {
    if samples != [] {
      var n := |samples| - 1;
      AllKept(keys, samples[..n]);
      assert samples == samples[..n] + [samples[n]];
      assert forall i :: 0 <= i < n ==> samples[..n][i] == samples[i];
    }
  }

  lemma {:induction false} LatencyHasSample(k: Key, samples: seq<Sample>)
    requires LatenciesOf(k, samples) != []
    ensures exists i :: 0 <= i < |samples| && samples[i].key == k
  {
    var n := |samples| - 1;
    if samples[n].key != k {
      LatencyHasSample(k, samples[..n]);
      var i :| 0 <= i < n && samples[..n][i].key == k;
      assert samples[i].key == k;
    }
  }

  /** All samples survive exactly if every histogram's key is live. */
  lemma SurvivesIff(f: Family)
    requires FamilyOk(f)
    ensures |CleanUp(f).pending| <= |f.pending|
    ensures |CleanUp(f).pending| == |f.pending| <==> f.histograms.Keys <= f.cache.live.Keys
    ensures f.histograms.Keys <= f.cache.live.Keys ==>
              CleanUp(f).pending == f.pending && CleanUp(f).histograms == f.histograms
  {
    var live := f.cache.live.Keys;
    AllKept(live, f.pending);
    if f.histograms.Keys <= live {
      forall i | 0 <= i < |f.pending| ensures f.pending[i].key in live {
        SampleHasLatency(f.pending, i);
        assert Exact(f, f.pending[i].key);
      }
    } else {
      var k :| k in f.histograms && k !in live;
      assert Exact(f, k);
      LatencyHasSample(k, f.pending);
    }
  }

  /** A family that has been collected: the same keys are known. */
  lemma CollectedFamily(f: Family, order: seq<Key>, g: Family)
    requires Tidy(f) && Enumerates(order, f) && g == f.(cache := Collected(f, order).cache)
    ensures FamilyOk(g) && CacheTidy(g.cache) && g.cache.size == f.cache.size
    ensures forall k :: k in f.histograms.Keys <==> Find(g.cache, k).Some?
  {
    CollectingNeverFails(f, order);
    CollectTidy(f, order);
    forall k ensures Exact(g, k) {
      assert Exact(f, k);
    }
  }

  /** A cumulative flush of one family keeps exactly the keys that are live, each with its histogram and its samples;
      it keeps everything if and only if there is room for all keys. */
  lemma CumulativeFinish(config: Config, f: Family, order: seq<Key>)
    requires !config.delta && Tidy(f) && Enumerates(order, f)
    ensures var g := Finish(config, f, Collected(f, order));
            && Tidy(g) && g.cache.size == f.cache.size && g.bounds == f.bounds
            && |g.pending| <= |f.pending| && (|g.pending| == |f.pending| <==> |f.histograms| <= f.cache.size)
            && (|f.histograms| <= f.cache.size ==> g.histograms == f.histograms && g.pending == f.pending)
  {
    var c := f.(cache := Collected(f, order).cache);
    CollectedFamily(f, order, c);
    EvictedIffOverfull(c.cache, f.histograms.Keys);
    assert |f.histograms| == |f.histograms.Keys|;
    SurvivesIff(c);
    CleanUpOk(c);
    CleanUpTidy(c);
  }

  lemma CleanUpTidy(f: Family)
    requires FamilyOk(f) && CacheTidy(f.cache) && forall k :: k in f.histograms.Keys <==> Find(f.cache, k).Some?
    ensures Tidy(CleanUp(f)) && CleanUp(f).cache.size == f.cache.size
  {
    CleanUpOk(f);
  }

  lemma LiveKeysAreKept(config: Config, f: Family, order: seq<Key>, k: Key)
    requires !config.delta && Tidy(f) && Enumerates(order, f)
    ensures var g := Finish(config, f, Collected(f, order));
            && (k in g.histograms <==> k in g.cache.live)
            && (k in g.histograms ==> && k in f.histograms && g.histograms[k] == f.histograms[k]
                                      && LatenciesOf(k, g.pending) == LatenciesOf(k, f.pending)
                                      && Find(g.cache, k) == Find(f.cache, k))
  {
    var c := f.(cache := Collected(f, order).cache);
    CollectedFamily(f, order, c);
    CollectingNeverFails(f, order);
    assert Find(c.cache, k) == Find(f.cache, k);
    LatenciesOfKept(k, c.cache.live.Keys, f.pending);
    assert k in c.cache.live ==> k in f.histograms.Keys;
  }

  // ---- runs ----

  datatype Which = Calls | Latencies | External | Db | Exp

  function FamilyOf(s: State, w: Which): Family {
    match w
    case Calls => s.calls
    case Latencies => s.latency
    case External => s.external
    case Db => s.db
    case Exp => s.exp
  }

  function CountOf(t: Tally, w: Which): nat {
    match w
    case Calls => t.calls
    case Latencies => t.latency
    case External => t.external
    case Db => t.db
    case Exp => t.exp
  }

  function OrderOf(o: Orders, w: Which): seq<Key> {
    match w
    case Calls => o.calls
    case Latencies => o.latency
    case External => o.external
    case Db => o.db
    case Exp => o.exp
  }

  ghost predicate FamilyFits(s: State, w: Which) {
    Tidy(FamilyOf(s, w)) && FamilyOf(s, w).cache.size == s.config.cacheSize
  }

  lemma NamedFits(config: Config, tracker: Tracker, f: Family, span: Span, text: string)
    requires Tidy(f)
    ensures Tidy(RecordNamed(config, tracker, f, span, text).family)
    ensures RecordNamed(config, tracker, f, span, text).family.cache.size == f.cache.size
  {
    var after := Track(config, tracker, span.service, span.name);
    RecordTidy(f, NamedKey(config, tracker, span, text), NamedDims(config, after, span, text), Latency(span));
  }

  lemma CustomFits(config: Config, f: Family, span: Span, parts: seq<string>)
    requires Tidy(f)
    ensures Tidy(RecordCustom(config, f, span, parts))
    ensures RecordCustom(config, f, span, parts).cache.size == f.cache.size
  {
    RecordTidy(f, CustomKey(config, span, parts), Dims(span.service, "", config.join(parts)), Latency(span));
  }

  lemma AddLatencyFits(s: State, span: Span, w: Which)
    requires FamilyFits(s, w)
    ensures FamilyFits(AddLatency(s, span), w)
  {
    if w.Latencies? {
      NamedFits(s.config, s.tracker, s.latency, span, span.latencyText);
    }
  }

  lemma AddExpFits(s: State, span: Span, w: Which)
    requires FamilyFits(s, w)
    ensures FamilyFits(AddExp(s, span), w)
  {
    if w.Exp? {
      NamedFits(s.config, s.tracker, s.exp, span, span.expText);
    }
  }

  lemma AddCallFits(s: State, span: Span, w: Which)
    requires FamilyFits(s, w)
    ensures FamilyFits(AddCall(s, span), w)
  {
    if w.Calls? {
      NamedFits(s.config, s.tracker, s.calls, span, span.callText);
    }
  }

  lemma AddCustomFits(s: State, span: Span, w: Which)
    requires FamilyFits(s, w)
    ensures FamilyFits(AddExternal(s, span), w) && FamilyFits(AddDb(s, span), w)
  {
    if w.External? {
      CustomFits(s.config, s.external, span, ExternalParts(span));
    } else if w.Db? {
      CustomFits(s.config, s.db, span, [span.dbText]);
    }
  }

  lemma ArriveFits(s: State, span: Span, w: Which)
    requires FamilyFits(s, w)
    ensures FamilyFits(Aggregate(s, span), w)
  {
    AddLatencyFits(s, span, w);
    var s1 := AddLatency(s, span);
    AddExpFits(s1, span, w);
    var s2 := AddExp(s1, span);
    AddCallFits(s2, span, w);
    var s3 := AddCall(s2, span);
    AddCustomFits(s3, span, w);
    AddCustomFits(AddExternal(s3, span), span, w);
  }

  lemma BuiltFamily(s: State, o: Orders, w: Which)
    requires Ok(s) && OrdersOk(s, o)
    ensures Enumerates(OrderOf(o, w), FamilyOf(s, w)) && Built(s, o).state.config == s.config
    ensures FamilyOf(Built(s, o).state, w)
            == Finish(s.config, FamilyOf(s, w), Collected(FamilyOf(s, w), OrderOf(o, w)))
  {
    BuildCompletes(s, o);
  }

  /** A cumulative build keeps exactly the keys that its caches hold live, each with its histogram, its samples and
      its dimensions. */
  lemma CumulativeBuildKeepsLiveKeys(s: State, o: Orders, w: Which, k: Key)
    requires !s.config.delta && Ok(s) && OrdersOk(s, o) && FamilyFits(s, w)
    ensures var f, g := FamilyOf(s, w), FamilyOf(Built(s, o).state, w);
            && (k in g.histograms <==> k in g.cache.live)
            && (k in g.histograms ==> && k in f.histograms && g.histograms[k] == f.histograms[k]
                                      && LatenciesOf(k, g.pending) == LatenciesOf(k, f.pending)
                                      && Find(g.cache, k) == Find(f.cache, k))
  {
    BuiltFamily(s, o, w);
    LiveKeysAreKept(s.config, FamilyOf(s, w), OrderOf(o, w), k);
  }

  /** No build of the run found more keys in the family than its cache has room for. */
  ghost predicate NeverOverfull(config: Config, events: seq<Event>, w: Which)
    requires CanRun(config, events)
  {
    events != [] ==>
      var n := |events| - 1;
      && NeverOverfull(config, events[..n], w)
      && (events[n].Tick? ==> |FamilyOf(Run(config, events[..n]).state, w).histograms| <= config.cacheSize)
  }

  lemma BuildFits(s: State, o: Orders, w: Which)
    requires !s.config.delta && Ok(s) && OrdersOk(s, o) && FamilyFits(s, w)
    ensures FamilyFits(Built(s, o).state, w)
    ensures var f, g := FamilyOf(s, w), FamilyOf(Built(s, o).state, w);
            && |g.pending| <= |f.pending|
            && (|g.pending| == |f.pending| <==> |f.histograms| <= s.config.cacheSize)
  {
    BuiltFamily(s, o, w);
    CumulativeFinish(s.config, FamilyOf(s, w), OrderOf(o, w));
  }

  lemma PendingCount(s: State, w: Which)
    ensures CountOf(InMemory(s), w) == |FamilyOf(s, w).pending|
  {
  }

  lemma CountsMakeUp(a: Tally, b: Tally, whole: Tally, w: Which)
    requires MakeUp(a, b, whole)
    ensures CountOf(a, w) + CountOf(b, w) == CountOf(whole, w)
  {
  }

  /** How the samples in memory compare with all that was accepted. */
  ghost predicate Compares(t: Trail, w: Which, all: bool) {
    && |FamilyOf(t.state, w).pending| <= CountOf(t.accepted, w)
    && (|FamilyOf(t.state, w).pending| == CountOf(t.accepted, w) <==> all)
  }

  lemma ArriveCompares(t: Trail, span: Span, w: Which, all: bool)
    requires Sound(t) && Compares(t, w, all)
    ensures Compares(Next(t, Arrive(span)), w, all)
  {
    AggregateOk(t.state, span);
    CountsMakeUp(InMemory(t.state), Worth(t.state.config, span), InMemory(Aggregate(t.state, span)), w);
    PendingCount(t.state, w);
    PendingCount(Aggregate(t.state, span), w);
    CountsMakeUp(t.accepted, Worth(t.state.config, span), Plus(t.accepted, Worth(t.state.config, span)), w);
  }

  lemma TickCompares(t: Trail, o: Orders, w: Which, all: bool)
    requires Sound(t) && !t.state.config.delta && OrdersOk(t.state, o) && FamilyFits(t.state, w)
    requires Compares(t, w, all)
    ensures Compares(Next(t, Tick(o)), w,
                     all && |FamilyOf(t.state, w).histograms| <= t.state.config.cacheSize)
  {
    BuildFits(t.state, o, w);
    assert Next(t, Tick(o)).accepted == t.accepted && Next(t, Tick(o)).state == Built(t.state, o).state;
  }

  lemma StepFits(t: Trail, e: Event, w: Which)
    requires Sound(t) && !t.state.config.delta && Enabled(t, e) && FamilyFits(t.state, w)
    ensures FamilyFits(Next(t, e).state, w)
  {
    match e
    case Arrive(span) => ArriveFits(t.state, span, w);
    case Tick(orders) => BuildFits(t.state, orders, w);
  }

  lemma {:induction false} RunCompares(config: Config, events: seq<Event>, w: Which)
    requires !config.delta && CanRun(config, events)
    ensures FamilyFits(Run(config, events).state, w)
    ensures Compares(Run(config, events), w, NeverOverfull(config, events, w))
  {
    if events == [] {
      NewTidy(config.bounds, config.cacheSize);
      NewTidy([], config.cacheSize);
    } else {
      var n := |events| - 1;
      var t := Run(config, events[..n]);
      RunCompares(config, events[..n], w);
      RunSound(config, events[..n]);
      StepFits(t, events[n], w);
      match events[n]
      case Arrive(span) => ArriveCompares(t, span, w, NeverOverfull(config, events[..n], w));
      case Tick(orders) => TickCompares(t, orders, w, NeverOverfull(config, events[..n], w));
    }
  }

  /** In every cumulative run, the counts that a build emits for a family never exceed what all spans accepted since
      the start were worth, and they are all of it if and only if no earlier build found more keys in the family
      than its cache has room for. */
  lemma CumulativeCountsAreComplete(config: Config, events: seq<Event>, o: Orders, w: Which)
    requires !config.delta && CanRun(config, events) && OrdersOk(Run(config, events).state, o)
    ensures var t := Run(config, events);
            && Built(t.state, o).metrics.Some?
            && CountOf(Emitted(Built(t.state, o).metrics.value), w) <= CountOf(t.accepted, w)
            && (CountOf(Emitted(Built(t.state, o).metrics.value), w) == CountOf(t.accepted, w)
                <==> NeverOverfull(config, events, w))
  {
    var t := Run(config, events);
    RunSound(config, events);
    BuildOk(t.state, o);
    RunCompares(config, events, w);
    PendingCount(t.state, w);
  }
}
