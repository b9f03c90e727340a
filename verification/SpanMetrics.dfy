/**
 Aggregation and flushing in the span metrics processor
 (processor/signozspanmetricsprocessor/processor.go:96-127, 559-623, 969-1154, 1172-1199, 1260-1288, 1365-1414).
 A span carries the texts its dimensions contribute to each key. Spans and flushes exclude each other by
 the processor's lock, so a run is a sequence of them.
 */
module SpanMetrics {
  import opened DimensionCache
  import opened LatencyHistogram
  import opened Options
  import opened Sums

  const OVERFLOW_SERVICE := "overflow_service"
  const OVERFLOW_OPERATION := "overflow_operation"

  /** join puts the parts of a key together. Keys of different parts may be the same. */
  datatype Config = Config(delta: bool, expEnabled: bool, bounds: seq<real>, cacheSize: Size, maxServices: nat,
                           maxOperations: nat, join: seq<string> -> Key)

  datatype Kind = Client | Server | Other

  /** skip: the span is stale, excluded, or its resource has no service name. timeBucket is the text of the
      start time's bucket. remote is the remote address, if there is one. */
  datatype Span = Span(skip: bool, service: string, name: string, kind: Kind, start: nat, end: nat, timeBucket: string,
                       latencyText: string, expText: string, callText: string,
                       remote: Option<string>, externalText: string, hasDb: bool, dbText: string)

  type Tracker = map<string, set<string>>

  datatype State = State(config: Config, tracker: Tracker, latency: Family, exp: Family, calls: Family,
                         external: Family, db: Family)

  /** An end before the start counts as no time at all. */
  function Latency(span: Span): real {
    if span.end > span.start then (span.end - span.start) as real / 1000000.0 else 0.0
  }

  // ---- names and the overflow caps ----

  function Operations(tracker: Tracker, service: string): set<string> {
    if service in tracker then tracker[service] else {}
  }

  function ServiceName(config: Config, tracker: Tracker, service: string): string {
    if |tracker| > config.maxServices then OVERFLOW_SERVICE else service
  }

  function OperationName(config: Config, tracker: Tracker, service: string, name: string): string {
    if |Operations(tracker, service)| > config.maxOperations then OVERFLOW_OPERATION else name
  }

  function Track(config: Config, tracker: Tracker, service: string, name: string): Tracker {
    var s := ServiceName(config, tracker, service);
    tracker[s := Operations(tracker, s) + {OperationName(config, tracker, s, name)}]
  }

  ghost predicate OperationsCapped(config: Config, operations: set<string>) {
    && |operations| <= config.maxOperations + 2
    && (|operations| == config.maxOperations + 2 ==> OVERFLOW_OPERATION in operations)
  }

  ghost predicate Capped(config: Config, tracker: Tracker) {
    && |tracker| <= config.maxServices + 2 && (|tracker| == config.maxServices + 2 ==> OVERFLOW_SERVICE in tracker)
    && forall s :: s in tracker ==> OperationsCapped(config, tracker[s])
  }

  lemma InsertSize<K, V>(m: map<K, V>, k: K, v: V)
    ensures |m[k := v]| == if k in m then |m| else |m| + 1
  {
    assert m[k := v].Keys == m.Keys + {k};
    assert |m[k := v]| == |m[k := v].Keys| && |m| == |m.Keys|;
  }

  /** At most one service and one operation beyond the limit, and then the overflow name. */
  lemma TrackCapped(config: Config, tracker: Tracker, service: string, name: string)
    requires Capped(config, tracker)
    ensures Capped(config, Track(config, tracker, service, name))
  {
    var s := ServiceName(config, tracker, service);
    var op := OperationName(config, tracker, s, name);
    InsertSize(tracker, s, Operations(tracker, s) + {op});
    assert OperationsCapped(config, Operations(tracker, s));
    assert OperationsCapped(config, Operations(tracker, s) + {op});
  }

  // ---- one span ----

  /** Only delta metrics have the time bucket in their keys. */
  function NamedKey(config: Config, tracker: Tracker, span: Span, text: string): Key {
    var s := ServiceName(config, tracker, span.service);
    var op := OperationName(config, tracker, s, span.name);
    config.join(if config.delta then [span.timeBucket, s, op, text] else [s, op, text])
  }

  function CustomKey(config: Config, span: Span, parts: seq<string>): Key {
    config.join(if config.delta then [span.timeBucket, span.service] + parts else [span.service] + parts)
  }

  /** The names are tested against the caps again, after the key was built and tracked. */
  function NamedDims(config: Config, tracker: Tracker, span: Span, text: string): Dims {
    var s := ServiceName(config, tracker, span.service);
    Dims(s, OperationName(config, tracker, s, span.name), text)
  }

  datatype Named = Named(tracker: Tracker, family: Family)

  function RecordNamed(config: Config, tracker: Tracker, f: Family, span: Span, text: string): Named {
    var after := Track(config, tracker, span.service, span.name);
    Named(after, Record(f, NamedKey(config, tracker, span, text), NamedDims(config, after, span, text), Latency(span)))
  }

  predicate HasExternalCall(span: Span) {
    span.kind.Client? && span.remote.Some?
  }

  predicate HasDbCall(span: Span) {
    !span.kind.Server? && span.hasDb
  }

  /** The remote address is part of the key of an external call. */
  function ExternalParts(span: Span): seq<string> {
    if span.remote.Some? then [span.remote.value, span.externalText] else [span.externalText]
  }

  function RecordCustom(config: Config, f: Family, span: Span, parts: seq<string>): Family {
    Record(f, CustomKey(config, span, parts), Dims(span.service, "", config.join(parts)), Latency(span))
  }

  function AddLatency(s: State, span: Span): State {
    var n := RecordNamed(s.config, s.tracker, s.latency, span, span.latencyText);
    s.(tracker := n.tracker, latency := n.family)
  }

  function AddExp(s: State, span: Span): State {
    if !s.config.expEnabled then s
    else
      var n := RecordNamed(s.config, s.tracker, s.exp, span, span.expText);
      s.(tracker := n.tracker, exp := n.family)
  }

  function AddCall(s: State, span: Span): State {
    var n := RecordNamed(s.config, s.tracker, s.calls, span, span.callText);
    s.(tracker := n.tracker, calls := n.family)
  }

  function AddExternal(s: State, span: Span): State {
    if HasExternalCall(span) then s.(external := RecordCustom(s.config, s.external, span, ExternalParts(span))) else s
  }

  function AddDb(s: State, span: Span): State {
    if HasDbCall(span) then s.(db := RecordCustom(s.config, s.db, span, [span.dbText])) else s
  }

  function Aggregate(s: State, span: Span): State {
    if span.skip then s
    else AddDb(AddExternal(AddCall(AddExp(AddLatency(s, span), span), span), span), span)
  }

  // ---- one flush ----

  datatype Metrics = Metrics(calls: seq<Point>, latency: seq<Point>, external: seq<Point>, db: seq<Point>,
                             exp: seq<Point>)

  /** The order in which each family's keys come out of its map. */
  datatype Orders = Orders(calls: seq<Key>, latency: seq<Key>, external: seq<Key>, db: seq<Key>, exp: seq<Key>)

  ghost predicate OrdersOk(s: State, o: Orders) {
    && Enumerates(o.calls, s.calls) && Enumerates(o.latency, s.latency) && Enumerates(o.external, s.external)
    && Enumerates(o.db, s.db) && Enumerates(o.exp, s.exp)
  }

  function Finish(config: Config, f: Family, c: Collection): Family {
    var clean := CleanUp(f.(cache := c.cache));
    if config.delta then Reset(clean) else clean
  }

  /** The state after a build whose five collections are these. */
  function Finished(s: State, calls: Collection, latency: Collection, external: Collection, db: Collection,
                    exp: Collection): State
  {
    State(s.config, s.tracker, Finish(s.config, s.latency, latency), Finish(s.config, s.exp, exp),
          Finish(s.config, s.calls, calls), Finish(s.config, s.external, external), Finish(s.config, s.db, db))
  }

  datatype Flush = Flush(state: State, metrics: Option<Metrics>)

  /** The families are collected one after the other; a failure ends the build and nothing is cleaned up. */
  ghost function Built(s: State, o: Orders): Flush
    requires OrdersOk(s, o)
  {
    var calls := Collected(s.calls, o.calls);
    var s1 := s.(calls := s.calls.(cache := calls.cache));
    if calls.failed then Flush(s1, None)
    else
      var latency := Collected(s.latency, o.latency);
      var s2 := s1.(latency := s.latency.(cache := latency.cache));
      if latency.failed then Flush(s2, None)
      else
        var external := Collected(s.external, o.external);
        var s3 := s2.(external := s.external.(cache := external.cache));
        if external.failed then Flush(s3, None)
        else
          var db := Collected(s.db, o.db);
          var s4 := s3.(db := s.db.(cache := db.cache));
          if db.failed then Flush(s4, None)
          else
            var exp := Collected(s.exp, o.exp);
            if exp.failed then Flush(s4.(exp := s.exp.(cache := exp.cache)), None)
            else
              Flush(Finished(s, calls, latency, external, db, exp),
                    Some(Metrics(calls.points, latency.points, external.points, db.points, exp.points)))
  }

  /** A build without a failure. */
  ghost function Completed(s: State, o: Orders): Flush
    requires OrdersOk(s, o)
  {
    var calls, latency := Collected(s.calls, o.calls), Collected(s.latency, o.latency);
    var external, db := Collected(s.external, o.external), Collected(s.db, o.db);
    var exp := Collected(s.exp, o.exp);
    Flush(Finished(s, calls, latency, external, db, exp),
          Some(Metrics(calls.points, latency.points, external.points, db.points, exp.points)))
  }

  // ---- what every step keeps ----

  ghost predicate Ok(s: State) {
    && Capped(s.config, s.tracker)
    && FamilyOk(s.latency) && FamilyOk(s.exp) && FamilyOk(s.calls) && FamilyOk(s.external) && FamilyOk(s.db)
  }

  lemma RecordNamedOk(config: Config, tracker: Tracker, f: Family, span: Span, text: string)
    requires Capped(config, tracker) && FamilyOk(f)
    ensures var n := RecordNamed(config, tracker, f, span, text);
            Capped(config, n.tracker) && FamilyOk(n.family) && |n.family.pending| == |f.pending| + 1
  {
    TrackCapped(config, tracker, span.service, span.name);
    RecordOk(f, NamedKey(config, tracker, span, text),
             NamedDims(config, Track(config, tracker, span.service, span.name), span, text), Latency(span));
  }

  lemma RecordCustomOk(config: Config, f: Family, span: Span, parts: seq<string>)
    requires FamilyOk(f)
    ensures FamilyOk(RecordCustom(config, f, span, parts))
            && |RecordCustom(config, f, span, parts).pending| == |f.pending| + 1
  {
    RecordOk(f, CustomKey(config, span, parts), Dims(span.service, "", config.join(parts)), Latency(span));
  }

  lemma FinishOk(config: Config, f: Family, order: seq<Key>)
    requires FamilyOk(f) && Enumerates(order, f)
    ensures !Collected(f, order).failed && FamilyOk(Finish(config, f, Collected(f, order)))
  {
    CollectingNeverFails(f, order);
    var g := f.(cache := Collected(f, order).cache);
    forall k ensures Exact(g, k) {
      assert Exact(f, k);
    }
    CleanUpOk(g);
    ResetOk(CleanUp(g));
  }

  // ---- counting ----

  datatype Tally = Tally(calls: nat, latency: nat, external: nat, db: nat, exp: nat)

  const NOTHING := Tally(0, 0, 0, 0, 0)

  function Plus(a: Tally, b: Tally): Tally {
    Tally(a.calls + b.calls, a.latency + b.latency, a.external + b.external, a.db + b.db, a.exp + b.exp)
  }

  /** In each family, a and b make up whole. */
  predicate MakeUp(a: Tally, b: Tally, whole: Tally) {
    && a.calls + b.calls == whole.calls && a.latency + b.latency == whole.latency
    && a.external + b.external == whole.external && a.db + b.db == whole.db && a.exp + b.exp == whole.exp
  }

  /** What a span adds to each family. */
  function Worth(config: Config, span: Span): Tally {
    if span.skip then NOTHING
    else Tally(1, 1, if span.kind.Client? && span.remote.Some? then 1 else 0,
               if !span.kind.Server? && span.hasDb then 1 else 0, if config.expEnabled then 1 else 0)
  }

  /** The counts of all data points of one build. */
  function Emitted(m: Metrics): Tally {
    Tally(Sum(PointCount, m.calls), Sum(PointCount, m.latency), Sum(PointCount, m.external), Sum(PointCount, m.db),
          Sum(PointCount, m.exp))
  }

  function InMemory(s: State): Tally {
    Tally(|s.calls.pending|, |s.latency.pending|, |s.external.pending|, |s.db.pending|, |s.exp.pending|)
  }

  lemma AddLatencyOk(s: State, span: Span)
    requires Ok(s)
    ensures Ok(AddLatency(s, span)) && InMemory(AddLatency(s, span)) == InMemory(s).(latency := InMemory(s).latency + 1)
  {
    RecordNamedOk(s.config, s.tracker, s.latency, span, span.latencyText);
  }

  lemma AddExpOk(s: State, span: Span)
    requires Ok(s)
    ensures Ok(AddExp(s, span))
    ensures InMemory(AddExp(s, span)) == InMemory(s).(exp := InMemory(s).exp + if s.config.expEnabled then 1 else 0)
  {
    RecordNamedOk(s.config, s.tracker, s.exp, span, span.expText);
  }

  lemma AddCallOk(s: State, span: Span)
    requires Ok(s)
    ensures Ok(AddCall(s, span)) && InMemory(AddCall(s, span)) == InMemory(s).(calls := InMemory(s).calls + 1)
  {
    RecordNamedOk(s.config, s.tracker, s.calls, span, span.callText);
  }

  lemma AddExternalOk(s: State, span: Span)
    requires Ok(s)
    ensures Ok(AddExternal(s, span))
    ensures InMemory(AddExternal(s, span))
            == InMemory(s).(external := InMemory(s).external + if HasExternalCall(span) then 1 else 0)
  {
    RecordCustomOk(s.config, s.external, span, ExternalParts(span));
  }

  lemma AddDbOk(s: State, span: Span)
    requires Ok(s)
    ensures Ok(AddDb(s, span))
    ensures InMemory(AddDb(s, span)) == InMemory(s).(db := InMemory(s).db + if HasDbCall(span) then 1 else 0)
  {
    RecordCustomOk(s.config, s.db, span, [span.dbText]);
  }

  lemma AggregateOk(s: State, span: Span)
    requires Ok(s)
    ensures Ok(Aggregate(s, span)) && MakeUp(InMemory(s), Worth(s.config, span), InMemory(Aggregate(s, span)))
  {
    if !span.skip {
      AddLatencyOk(s, span);
      var s1 := AddLatency(s, span);
      AddExpOk(s1, span);
      var s2 := AddExp(s1, span);
      AddCallOk(s2, span);
      var s3 := AddCall(s2, span);
      AddExternalOk(s3, span);
      AddDbOk(AddExternal(s3, span), span);
    }
  }

  /** A build never takes an error return. */
  lemma BuildCompletes(s: State, o: Orders)
    requires Ok(s) && OrdersOk(s, o)
    ensures Built(s, o) == Completed(s, o)
  {
    CollectingNeverFails(s.calls, o.calls);
    CollectingNeverFails(s.latency, o.latency);
    CollectingNeverFails(s.external, o.external);
    CollectingNeverFails(s.db, o.db);
    CollectingNeverFails(s.exp, o.exp);
  }

  lemma CompletedOk(s: State, o: Orders)
    requires Ok(s) && OrdersOk(s, o)
    ensures Ok(Completed(s, o).state)
  {
    FinishOk(s.config, s.calls, o.calls);
    FinishOk(s.config, s.latency, o.latency);
    FinishOk(s.config, s.external, o.external);
    FinishOk(s.config, s.db, o.db);
    FinishOk(s.config, s.exp, o.exp);
  }

  lemma CompletedCounts(s: State, o: Orders)
    requires Ok(s) && OrdersOk(s, o)
    ensures Emitted(Completed(s, o).metrics.value) == InMemory(s)
  {
    EmittedCountsAddUp(s.calls, o.calls);
    EmittedCountsAddUp(s.latency, o.latency);
    EmittedCountsAddUp(s.external, o.external);
    EmittedCountsAddUp(s.db, o.db);
    EmittedCountsAddUp(s.exp, o.exp);
  }

  /** A build never takes an error return, and what it emits adds up to what was in memory. */
  lemma BuildOk(s: State, o: Orders)
    requires Ok(s) && OrdersOk(s, o)
    ensures Built(s, o).metrics.Some? && Ok(Built(s, o).state)
    ensures Emitted(Built(s, o).metrics.value) == InMemory(s)
  {
    BuildCompletes(s, o);
    CompletedOk(s, o);
    CompletedCounts(s, o);
  }

  // ---- runs ----

  datatype Event = Arrive(span: Span) | Tick(orders: Orders)

  /** accepted and emitted are history; failures counts the builds that returned an error. */
  datatype Trail = Trail(state: State, accepted: Tally, emitted: Tally, failures: nat)

  function Start(config: Config): Trail {
    var family := NewFamily(config.bounds, config.cacheSize);
    Trail(State(config, map[], family, NewFamily([], config.cacheSize), family, family, family), NOTHING, NOTHING, 0)
  }

  ghost predicate Enabled(t: Trail, e: Event) {
    e.Tick? ==> OrdersOk(t.state, e.orders)
  }

  ghost function Next(t: Trail, e: Event): Trail
    requires Enabled(t, e)
  {
    match e
    case Arrive(span) =>
      t.(state := Aggregate(t.state, span), accepted := Plus(t.accepted, Worth(t.state.config, span)))
    case Tick(orders) =>
      var built := Built(t.state, orders);
      if built.metrics.None? then t.(state := built.state, failures := t.failures + 1)
      else t.(state := built.state, emitted := Plus(t.emitted, Emitted(built.metrics.value)))
  }

  ghost predicate CanRun(config: Config, events: seq<Event>)
    decreases |events|, 0
  {
    events != [] ==>
      var n := |events| - 1;
      CanRun(config, events[..n]) && Enabled(Run(config, events[..n]), events[n])
  }

  ghost function Run(config: Config, events: seq<Event>): Trail
    requires CanRun(config, events)
    decreases |events|, 1
  {
    if events == [] then Start(config)
    else
      var n := |events| - 1;
      Next(Run(config, events[..n]), events[n])
  }

  ghost predicate Sound(t: Trail) {
    Ok(t.state) && t.failures == 0 && (t.state.config.delta ==> MakeUp(t.emitted, InMemory(t.state), t.accepted))
  }

  lemma StartSound(config: Config)
    ensures Sound(Start(config))
  {
    NewFamilyOk(config.bounds, config.cacheSize);
    NewFamilyOk([], config.cacheSize);
  }

  lemma ArriveSound(t: Trail, span: Span)
    requires Sound(t)
    ensures Sound(Next(t, Arrive(span))) && Next(t, Arrive(span)).state.config == t.state.config
  {
    AggregateOk(t.state, span);
  }

  lemma CompletedEmpties(s: State, o: Orders)
    requires OrdersOk(s, o) && s.config.delta
    ensures InMemory(Completed(s, o).state) == NOTHING
  {
  }

  /** A delta build leaves nothing in memory. */
  lemma DeltaBuildEmpties(s: State, o: Orders)
    requires Ok(s) && OrdersOk(s, o)
    ensures Built(s, o).state.config == s.config
    ensures s.config.delta ==> InMemory(Built(s, o).state) == NOTHING
  {
    BuildCompletes(s, o);
    if s.config.delta {
      CompletedEmpties(s, o);
    }
  }

  lemma MovedOut(emitted: Tally, before: Tally, after: Tally, accepted: Tally)
    requires MakeUp(emitted, before, accepted) && after == NOTHING
    ensures MakeUp(Plus(emitted, before), after, accepted)
  {
  }

  lemma TickSound(t: Trail, o: Orders)
    requires Sound(t) && OrdersOk(t.state, o)
    ensures Sound(Next(t, Tick(o))) && Next(t, Tick(o)).state.config == t.state.config
  {
    var built := Built(t.state, o);
    assert built.metrics.Some? && Ok(built.state) && Emitted(built.metrics.value) == InMemory(t.state) by {
      BuildOk(t.state, o);
    }
    DeltaBuildEmpties(t.state, o);
    if t.state.config.delta {
      MovedOut(t.emitted, InMemory(t.state), InMemory(built.state), t.accepted);
    }
  }

  lemma NextSound(t: Trail, e: Event)
    requires Sound(t) && Enabled(t, e)
    ensures Sound(Next(t, e)) && Next(t, e).state.config == t.state.config
  {
    match e
    case Arrive(span) => ArriveSound(t, span);
    case Tick(orders) => TickSound(t, orders);
  }

  lemma {:induction false} RunSound(config: Config, events: seq<Event>)
    requires CanRun(config, events)
    ensures Sound(Run(config, events)) && Run(config, events).state.config == config
  {
    if events == [] {
      StartSound(config);
    } else {
      var n := |events| - 1;
      RunSound(config, events[..n]);
      NextSound(Run(config, events[..n]), events[n]);
    }
  }

  /** In every run, every build succeeds: each histogram's key has its dimensions, live or evicted. */
  lemma EveryBuildSucceeds(config: Config, events: seq<Event>, o: Orders)
    requires CanRun(config, events) && OrdersOk(Run(config, events).state, o)
    ensures Run(config, events).failures == 0 && Built(Run(config, events).state, o).metrics.Some?
  {
    RunSound(config, events);
    BuildOk(Run(config, events).state, o);
  }

  /** In every delta run, the counts emitted by all builds and the counts a build would emit now make up,
      family by family, what the accepted spans were worth. */
  lemma DeltaCountsAreConserved(config: Config, events: seq<Event>, o: Orders)
    requires config.delta && CanRun(config, events) && OrdersOk(Run(config, events).state, o)
    ensures var t := Run(config, events);
            && Built(t.state, o).metrics.Some?
            && MakeUp(t.emitted, Emitted(Built(t.state, o).metrics.value), t.accepted)
  {
    RunSound(config, events);
    BuildOk(Run(config, events).state, o);
  }

  /** The point is the histogram of exactly the samples of its key, with the dimensions in the cache; its
      buckets add up to its count, and with ascending bounds each counts its own interval. */
  ghost predicate ExactPoint(f: Family, key: Key, p: Point) {
    var xs := LatenciesOf(key, f.pending);
    && p.key == key && Some(p.dims) == Find(f.cache, key)
    && p.histogram == HistogramOf(f.bounds, xs)
    && p.histogram.count == |xs| == Sum(Itself, p.histogram.buckets)
    && (Ascending(f.bounds) ==>
          forall b: nat :: b <= |f.bounds| ==> p.histogram.buckets[b] == Sum(InBucketCount(f.bounds, b), xs))
  }

  /** One exact point for each key. */
  ghost predicate ExactPoints(f: Family, order: seq<Key>, points: seq<Point>) {
    |points| == |order| && forall i :: 0 <= i < |order| ==> ExactPoint(f, order[i], points[i])
  }

  lemma PointIsExact(f: Family, order: seq<Key>, i: nat)
    requires FamilyOk(f) && Enumerates(order, f) && i < |order|
    ensures |Collected(f, order).points| == |order| && ExactPoint(f, order[i], Collected(f, order).points[i])
  {
    CollectedPoints(f, order, i);
    assert Exact(f, order[i]);
    var xs := LatenciesOf(order[i], f.pending);
    BucketsSumToCount(f.bounds, xs);
    if Ascending(f.bounds) {
      forall b: nat | b <= |f.bounds|
        ensures HistogramOf(f.bounds, xs).buckets[b] == Sum(InBucketCount(f.bounds, b), xs)
      {
        BucketsCountTheirInterval(f.bounds, xs, b);
      }
    }
  }

  lemma PointsAreExact(f: Family, order: seq<Key>)
    requires FamilyOk(f) && Enumerates(order, f)
    ensures ExactPoints(f, order, Collected(f, order).points)
  {
    CollectingNeverFails(f, order);
    forall i | 0 <= i < |order| ensures ExactPoint(f, order[i], Collected(f, order).points[i]) {
      PointIsExact(f, order, i);
    }
  }

  /** In every run, whatever a build emits is, family by family and key by key, exactly the samples in memory. */
  lemma EveryBuildIsExact(config: Config, events: seq<Event>, o: Orders)
    requires CanRun(config, events) && OrdersOk(Run(config, events).state, o)
    ensures var s := Run(config, events).state;
            && Built(s, o).metrics.Some?
            && var m := Built(s, o).metrics.value;
               && ExactPoints(s.calls, o.calls, m.calls) && ExactPoints(s.latency, o.latency, m.latency)
               && ExactPoints(s.external, o.external, m.external) && ExactPoints(s.db, o.db, m.db)
               && ExactPoints(s.exp, o.exp, m.exp)
  {
    RunSound(config, events);
    StateBuildsExactly(Run(config, events).state, o);
  }

  lemma StateBuildsExactly(s: State, o: Orders)
    requires Ok(s) && OrdersOk(s, o)
    ensures Built(s, o).metrics.Some?
    ensures var m := Built(s, o).metrics.value;
            && ExactPoints(s.calls, o.calls, m.calls) && ExactPoints(s.latency, o.latency, m.latency)
            && ExactPoints(s.external, o.external, m.external) && ExactPoints(s.db, o.db, m.db)
            && ExactPoints(s.exp, o.exp, m.exp)
  {
    BuildOk(s, o);
    PointsAreExact(s.calls, o.calls);
    PointsAreExact(s.latency, o.latency);
    PointsAreExact(s.external, o.external);
    PointsAreExact(s.db, o.db);
    PointsAreExact(s.exp, o.exp);
  }

  /** In every run, at most two services beyond the limit are tracked, and two operations of each. */
  lemma NamesAreCapped(config: Config, events: seq<Event>)
    requires CanRun(config, events)
    ensures var tracker := Run(config, events).state.tracker;
            |tracker| <= config.maxServices + 2 && forall s :: s in tracker ==> |tracker[s]| <= config.maxOperations + 2
  {
    RunSound(config, events);
  }

  // ---- the processor ----

  class Processor {
    const config: Config
    var tracker: Tracker
    var latency: Family
    var exp: Family
    var calls: Family
    var external: Family
    var db: Family

    ghost function View(): State
      reads this
    {
      State(config, tracker, latency, exp, calls, external, db)
    }

    ghost predicate Valid()
      reads this
    {
      Ok(View())
    }

    constructor (config: Config)
      ensures Valid() && View() == Start(config).state
    {
      this.config := config;
      tracker := map[];
      latency := NewFamily(config.bounds, config.cacheSize);
      calls := NewFamily(config.bounds, config.cacheSize);
      external := NewFamily(config.bounds, config.cacheSize);
      db := NewFamily(config.bounds, config.cacheSize);
      exp := NewFamily([], config.cacheSize);
      StartSound(config);
    }

    method BuildKey(span: Span, text: string) returns (key: Key)
      modifies this`tracker
      ensures tracker == Track(config, old(tracker), span.service, span.name)
      ensures key == NamedKey(config, old(tracker), span, text)
    {
      var service, name := span.service, span.name;
      if |tracker| > config.maxServices {
        service := OVERFLOW_SERVICE;
      }
      if service in tracker && |tracker[service]| > config.maxOperations {
        name := OVERFLOW_OPERATION;
      }
      key := config.join(if config.delta then [span.timeBucket, service, name, text] else [service, name, text]);
      if service !in tracker {
        tracker := tracker[service := {}];
      }
      tracker := tracker[service := tracker[service] + {name}];
    }

    method AggregateMetricsForSpan(span: Span)
      requires Valid()
      modifies this
      ensures Valid() && View() == Aggregate(old(View()), span)
    {
      if span.skip {
        return;
      }
      UpdateLatency(span);
      if config.expEnabled {
        UpdateExp(span);
      }
      UpdateCalls(span);
      if HasExternalCall(span) {
        UpdateExternal(span);
      }
      if HasDbCall(span) {
        UpdateDb(span);
      }
    }

    method UpdateLatency(span: Span)
      requires Valid()
      modifies this
      ensures Valid() && View() == AddLatency(old(View()), span)
    {
      AddLatencyOk(View(), span);
      var key := BuildKey(span, span.latencyText);
      latency := UpdateFamily(latency, key, NamedDims(config, tracker, span, span.latencyText), Latency(span));
    }

    method UpdateExp(span: Span)
      requires Valid() && config.expEnabled
      modifies this
      ensures Valid() && View() == AddExp(old(View()), span)
    {
      AddExpOk(View(), span);
      var key := BuildKey(span, span.expText);
      exp := UpdateFamily(exp, key, NamedDims(config, tracker, span, span.expText), Latency(span));
    }

    method UpdateCalls(span: Span)
      requires Valid()
      modifies this
      ensures Valid() && View() == AddCall(old(View()), span)
    {
      AddCallOk(View(), span);
      var key := BuildKey(span, span.callText);
      calls := UpdateFamily(calls, key, NamedDims(config, tracker, span, span.callText), Latency(span));
    }

    method UpdateExternal(span: Span)
      requires Valid() && HasExternalCall(span)
      modifies this
      ensures Valid() && View() == AddExternal(old(View()), span)
    {
      AddExternalOk(View(), span);
      var parts := ExternalParts(span);
      external := UpdateFamily(external, CustomKey(config, span, parts), Dims(span.service, "", config.join(parts)),
                               Latency(span));
    }

    method UpdateDb(span: Span)
      requires Valid() && HasDbCall(span)
      modifies this
      ensures Valid() && View() == AddDb(old(View()), span)
    {
      AddDbOk(View(), span);
      var parts := [span.dbText];
      db := UpdateFamily(db, CustomKey(config, span, parts), Dims(span.service, "", config.join(parts)), Latency(span));
    }

    method BuildMetrics() returns (metrics: Option<Metrics>, ghost orders: Orders)
      requires Valid()
      modifies this
      ensures Valid() && OrdersOk(old(View()), orders) && Built(old(View()), orders) == Flush(View(), metrics)
      ensures metrics.Some?
    {
      ghost var o1, o2, o3, o4, o5;
      var c1, c2, c3, c4, c5;
      c1, o1 := Collect(calls);
      c2, o2 := Collect(latency);
      c3, o3 := Collect(external);
      c4, o4 := Collect(db);
      c5, o5 := Collect(exp);
      orders := Orders(o1, o2, o3, o4, o5);
      BuildCompletes(View(), orders);
      CompletedOk(View(), orders);
      FinishAll(c1, c2, c3, c4, c5, orders);
      metrics := Some(Metrics(c1.points, c2.points, c3.points, c4.points, c5.points));
    }

    /** What follows a build without a failure: every family is cleaned up. */
    method FinishAll(c1: Collection, c2: Collection, c3: Collection, c4: Collection, c5: Collection,
                     ghost o: Orders)
      requires Valid() && OrdersOk(View(), o)
      requires c1 == Collected(calls, o.calls) && c2 == Collected(latency, o.latency)
      requires c3 == Collected(external, o.external) && c4 == Collected(db, o.db) && c5 == Collected(exp, o.exp)
      modifies this
      ensures View() == Finished(old(View()), c1, c2, c3, c4, c5)
    {
      var f1 := FinishFamily(calls, c1, o.calls);
      var f2 := FinishFamily(latency, c2, o.latency);
      var f3 := FinishFamily(external, c3, o.external);
      var f4 := FinishFamily(db, c4, o.db);
      var f5 := FinishFamily(exp, c5, o.exp);
      calls, latency, external, db, exp := f1, f2, f3, f4, f5;
    }

    /** Clean-up of one family: drop what the cache no longer holds live, and everything if delta. */
    method FinishFamily(f: Family, c: Collection, ghost order: seq<Key>) returns (g: Family)
      requires FamilyOk(f) && Enumerates(order, f) && c == Collected(f, order)
      ensures g == Finish(config, f, c)
    {
      var live := c.cache.live;
      var histograms := DropDead(f.histograms, live.Keys);
      g := Family(f.bounds, RemoveEvictedItems(c.cache), histograms, Of(live.Keys, f.pending));
      if config.delta {
        g := Reset(g);
      }
    }
  }

  method DropDead(histograms: map<Key, Histogram>, live: set<Key>) returns (kept: map<Key, Histogram>)
    ensures kept == histograms - (histograms.Keys - live)
  {
    kept := histograms;
    var rest := histograms.Keys;
    while rest != {}
      invariant rest <= histograms.Keys && kept == histograms - (histograms.Keys - live - rest)
      decreases |rest|
    {
      var key :| key in rest;
      if key !in live {
        kept := kept - {key};
      }
      rest := rest - {key};
    }
  }

  /** The histogram of one key with one value more, starting an empty one if there is none. */
  method UpdateHistogram(f: Family, key: Key, latency: real) returns (h: Histogram)
    requires FamilyOk(f)
    ensures h == Observe(f.bounds, if key in f.histograms then f.histograms[key] else Empty(f.bounds), latency)
  {
    h := Empty(f.bounds);
    if key in f.histograms {
      assert Exact(f, key);
      h := f.histograms[key];
    }
    var index := SearchFloat64s(f.bounds, latency);
    h := Histogram(h.count + 1, h.sum + latency, h.buckets[index := h.buckets[index] + 1]);
  }

  /** The cache look-up and the histogram update for one key. */
  method UpdateFamily(f: Family, key: Key, dims: Dims, latency: real) returns (g: Family)
    requires FamilyOk(f)
    ensures g == Record(f, key, dims, latency)
  {
    var cache := f.cache;
    var known := Find(cache, key);
    cache := Get(cache, key);
    if known.None? {
      cache := Add(cache, key, dims);
    }
    var h := UpdateHistogram(f, key, latency);
    g := Family(f.bounds, cache, f.histograms[key := h], f.pending + [Sample(key, latency)]);
  }

  /** A pass over the histograms in the order the map yields them. */
  method Collect(f: Family) returns (c: Collection, ghost order: seq<Key>)
    requires FamilyOk(f)
    ensures Enumerates(order, f) && c == Collected(f, order) && !c.failed
  {
    order := [];
    c := Collection(f.cache, [], false);
    var rest := f.histograms.Keys;
    while rest != {}
      invariant rest <= f.histograms.Keys && Distinct(order)
      invariant forall k :: k in order <==> k in f.histograms && k !in rest
      invariant c == Collected(f, order)
      decreases |rest|
    {
      CollectingNeverFails(f, order);
      var key :| key in rest;
      var dims := Find(c.cache, key);
      assert (order + [key])[..|order|] == order;
      order := order + [key];
      rest := rest - {key};
      if dims.None? {
        c := c.(failed := true);
      } else {
        c := Collection(Get(c.cache, key), c.points + [Point(key, dims.value, f.histograms[key])], false);
      }
    }
    CollectingNeverFails(f, order);
  }
}
