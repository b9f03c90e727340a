# Verified models of the SigNoz OpenTelemetry collector's stateful parts

This project models, in Dafny, the parts of the collector that keep state over an unbounded run and make a
promise about it, and proves those promises for every input, every run or every interleaving.

- **Time-bucketed registration set** (`TimeBuckets`, `BucketSpec`, `BucketSet`, `BucketInterleaving`,
  `BucketPreWrite`, `BucketAnswers`). A set of ids per time bucket, kept in a recycled ring of caches. `BucketSpec` is
  the abstract map from live bucket start to ids, `BucketSet` the object with its loops, and `BucketInterleaving` a
  step relation over any number of threads in which `Plan` gives up its read lock to create a bucket and caches are
  told apart by identity. A cache may forget entries at any time; it never invents one.
- **Logs export pipeline** (`LogsPipeline`, `ResourcesSeen`). Any number of pushes share a limiter; each has its
  producers, a bounded channel, a wait group, a close-once closer and one consumer. Errors and cancellation are steps
  like any other. `ResourcesSeen` is the map of fingerprints the producers share.
- **Tail sampler** (`TailSampler`, `TailSamplerTokens`, `TailSamplerReadmission`, `TailSamplerProgress`,
  `TailSamplerDecisions`, `TailSamplerOrder`). Any number of calls of `processTraces` beside the ticker, with the
  trace table, the bounded delete channel, the atomic counter and each trace's lock as separate steps.
- **Logs normalizer** (`FieldScan`, `FieldPaths`, `Regroup`). The indexed, pruned scan for configured fields, and the
  in-place regrouping of records by inferred scope.
- **Span metrics** (`LatencyHistogram`, `DimensionCache`, `DimensionRecency`, `SpanMetrics`, `SpanMetricsCaps`,
  `SpanMetricsCumulative`, `SpanMetricsKeys`). Five families of histograms with LRU dimension caches, the overflow
  caps, and delta and cumulative flushes.
- **Smaller machines.** Metadata rows of a metrics batch (`MetadataBatch`), the query_log window scraper
  (`QueryLogScraper`), marking and back-pressure of a Kafka claim (`KafkaClaim`), JSON sanitising (`SanitizeJson`,
  `SanitizedPositions`).

`Sums`, `Flattening` and `Options` hold what several modules share. `dafny verify dfyconfig.toml` checks everything.

Some promises hold only under a condition. The model keeps the code as it is and states the condition exactly:

- `Config.Validate` accepts a bucket width under a millisecond, which is cut to zero and then divided by
  (`SubMillisecondWidthIsAccepted`; `ValidatedConfigInMillis` says when the width is positive).
- Pre-writing the next bucket can evict the bucket it is for. `Plan` gives up its read lock before it creates a
  bucket, so even a clock that never goes back does not prevent it: `ForwardClockEvictsCurrent` is a run of three
  calls in which another call moves on to a later bucket in between. `HandOverEvictsCurrentIff` is the exact condition
  at the write step, in every interleaving, and `PreWriteSparesCurrent` what a caller can check: no call so far has a
  clock past the planner's own bucket. For calls one at a time a clock that never goes back is enough
  (`PreWriteNeverEvictsCurrent`), `PreWriteEvictsCurrentIff` is exact for any clock, and `StaleClockEvictsCurrent` has
  a clock that goes back.
- A push can always go on unless it is wedged behind a full channel whose consumer has left, or starved of limiter
  slots (`StuckExactlyWhen`). Cancellation can wedge it (`CancellationCanWedge`); while no push is wedged the pushes
  never deadlock, errors and cancellation included (`NoDeadlock`, `UnwedgedRunsFinish`).
- `group.Wait` returning nil does not mean that the rows are there: in a cancelled push it can return nil with none
  (`CancelledWaitCanReturnNil`). The push then goes on to prepare the batch of resource fingerprints with the
  cancelled context (exporter/clickhouselogsexporter/exporter.go:710), which is outside the model.
  `NilWaitIsCompleteIff` says exactly when a nil return is complete: every producer was launched and the channel is
  empty, or equally, the usage counts every record.
- A batch of a trace that is decided by several ticks is forwarded once for each sampled decision
  (`ForwardedAsDecided`). That takes an id admitted more than once (`AdmittedOnceDecidedOnce`), and happens when a
  trace is dropped before its tick and its id admitted again (`ReadmittedBatchIsForwardedTwice`).
- A cumulative build of the span metrics drops the histograms of keys that its dimension cache has evicted, so its
  counts are those of all spans since the start if and only if no earlier build found more keys than the cache holds
  (`CumulativeCountsAreComplete`).
- A query_log window is scraped too early exactly when its due time does not fit in 32 bits
  (`PrematureExactlyOnOverflow`). The pushed windows tile time exactly when they end within 32 bits
  (`TilesExactlyWhenItFits`, and for one push `PushKeepsTilingIff`); past that the cursor can wrap to zero and the
  same window is pushed again (`WrappedCursorRepeatsAWindow`).

## Model

| member | source | states |
|---|---|---|
| `TimeBuckets.BucketStartBrackets` | pkg/timebucketedset/time_bucketed_set.go:73-75 | a bucket start is a multiple of the width on the side of the clock toward zero, less than a width away |
| `TimeBuckets.BucketStartUnique` | pkg/timebucketedset/time_bucketed_set.go:73-75 | for a non-negative clock the aligned start whose bucket contains it is the one computed |
| `TimeBuckets.EligibleTimesAreASuffix` | pkg/timebucketedset/time_bucketed_set.go:192-202 | an id's eligible times are exactly a non-empty suffix of its bucket, inside the pre-write window |
| `TimeBuckets.ValidatedConfigInMillis` | pkg/timebucketedset/config.go:36-70 | what an accepted configuration guarantees once both durations are whole milliseconds: a pre-write window of zero or at least a second, and when the width is still positive |
| `TimeBuckets.TenSecondBucketsAreAccepted` | pkg/timebucketedset/config.go:48-70 | the configuration of the two counter-runs below is accepted |
| `TimeBuckets.SubMillisecondWidthIsAccepted` | pkg/timebucketedset/config.go:48-70 | an accepted width that is cut to zero exists |
| `BucketSpec.CreateKeepsTopK` | pkg/timebucketedset/time_bucketed_set.go:149-190 | creating a bucket keeps the live starts the largest ones ever asked for |
| `BucketSpec.LiveStartsAreTheLargest` | pkg/timebucketedset/time_bucketed_set.go:149-190 | after any requests the live starts are exactly the MaxBuckets largest distinct ones |
| `BucketSpec.EvictedStartNeverReturns` | pkg/timebucketedset/time_bucketed_set.go:155-177 | a start that was evicted or refused is not live again after any further requests |
| `BucketSpec.LiveStartsIgnoreRequestOrder` | pkg/timebucketedset/time_bucketed_set.go:149-190 | the live starts depend on which starts were asked for, not on their order |
| `BucketSpec.EvictsExactlyTheOldest` | pkg/timebucketedset/time_bucketed_set.go:155-177 | a live start makes room for a new one if and only if the set is full, it is the oldest, and it is older than the new one |
| `BucketSpec.PreWriteNeverEvictsCurrent` | pkg/timebucketedset/time_bucketed_set.go:93-106 | for calls one at a time under a non-decreasing non-negative clock, a pre-write leaves the current bucket live with its id and opens the next |
| `BucketSpec.PreWriteEvictsCurrentIff` | pkg/timebucketedset/time_bucketed_set.go:93-106 | for one call on its own with any clock, exactly when a pre-write evicts the bucket it is for |
| `BucketSpec.StaleClockEvictsCurrent` | pkg/timebucketedset/time_bucketed_set.go:93-106 | with an accepted configuration, calls one at a time whose clock goes back, in which it does |
| `BucketSpec.PlanAnswersExactly` | pkg/timebucketedset/time_bucketed_set.go:77-106 | told by the map before the call: current exactly unless the bucket is near enough, live and holds the id; next exactly if the id is held, eligible and not held by the next bucket |
| `BucketSpec.AlignedPlanAnswersExactly` | pkg/timebucketedset/time_bucketed_set.go:77-106 | for an aligned start eligibility is near enough, and a next that is asked for is live and lacks the id |
| `BucketSet.BucketedSet.CreateBucket` | pkg/timebucketedset/time_bucketed_set.go:149-190 | the object's map becomes the specified one; caches allocated never exceed MaxBuckets and none is left spare |
| `BucketSet.BucketedSet.FindOldest` | pkg/timebucketedset/time_bucketed_set.go:157-162 | the loop finds the smallest of the live starts and the requested one |
| `BucketSet.BucketedSet.GetOrCreateBucket` | pkg/timebucketedset/time_bucketed_set.go:130-147 | no bucket more than a width ahead of the clock's is opened; the bucket returned is the live one, if any |
| `BucketSet.BucketedSet.Plan` | pkg/timebucketedset/time_bucketed_set.go:77-106 | the new map is that of the specification, and both answers are told exactly by the buckets before the call |
| `BucketSet.BucketedSet.Apply` | pkg/timebucketedset/time_bucketed_set.go:112-128 | rows of live buckets are registered, others ignored |
| `BucketSet.ApplyOnlyRegistersRows` | pkg/timebucketedset/time_bucketed_set.go:108-128 | an id is in a bucket after Apply only if it was before or a row says so |
| `BucketSet.ApplyRegistersExactly` | pkg/timebucketedset/time_bucketed_set.go:108-128 | after Apply a live bucket holds an id exactly if it did or a row registered it there, and the cache has not forgotten it since |
| `BucketInterleaving.CreateRefines` | pkg/timebucketedset/time_bucketed_set.go:149-190 | with caches as objects: eviction resets and recycles a cache, live caches stay distinct, and the store still represents the abstract map |
| `BucketInterleaving.InvStep` | pkg/timebucketedset/time_bucketed_set.go:77-190 | every step of every thread keeps the store, lock and per-thread invariants |
| `BucketInterleaving.OtherThreadStep` | pkg/timebucketedset/time_bucketed_set.go:140-146 | no other thread moves the buckets while a thread reads them |
| `BucketInterleaving.PlanNeverInventsARegistration` | pkg/timebucketedset/time_bucketed_set.go:77-128 | in every interleaving Plan answers current=false only for a pair applied while its bucket was live, and next only inside the id's pre-write slot |
| `BucketInterleaving.RegisteredWasApplied` | pkg/timebucketedset/time_bucketed_set.go:112-128 | every registration goes back to an Apply step on a live bucket |
| `BucketInterleaving.LiveBucketsOfEveryRun` | pkg/timebucketedset/time_bucketed_set.go:149-190 | in every reachable state: live starts are the largest ever asked for, caches are distinct, none is spare, at most MaxBuckets exist |
| `BucketInterleaving.EvictedBucketNeverReturns` | pkg/timebucketedset/time_bucketed_set.go:155-177 | in every interleaving a start asked for and not live stays so |
| `BucketPreWrite.HandOverEvictsCurrentIff` | pkg/timebucketedset/time_bucketed_set.go:140-190 | in every interleaving, the write step of a pre-write evicts the live bucket it is for if and only if the next one is missing, the set is full and nothing older is live |
| `BucketPreWrite.BucketSurvives` | pkg/timebucketedset/time_bucketed_set.go:130-190 | in every interleaving of aligned calls with non-negative clocks none of which is past a bucket, that bucket once live stays live |
| `BucketPreWrite.PreWriteSparesCurrent` | pkg/timebucketedset/time_bucketed_set.go:93-106 | in every interleaving, a pre-write leaves its bucket live with its ids, and opens the next, if no call so far has a clock past the planner's bucket |
| `BucketPreWrite.ForwardClockEvictsCurrent` | pkg/timebucketedset/time_bucketed_set.go:140-144 | an interleaving with clocks 0, 9000 and 10000 in which a pre-write evicts the bucket it is for at the lock hand-over |
| `BucketAnswers.AnswersExactly` | pkg/timebucketedset/time_bucketed_set.go:77-146 | in every interleaving, at the step where a call answers: for its own bucket, current exactly unless that bucket is near enough, live and holds the id, and never next; for the next bucket, the id was found in its own bucket before and is eligible, and next exactly if the next bucket is near enough, live and lacks the id |
| `BucketAnswers.AppliedIdIsHeld` | pkg/timebucketedset/time_bucketed_set.go:108-128 | in every interleaving an applied id is held for as long as its bucket is live and its cache does not forget it |
| `LogsPipeline.NothingSentAfterClose` | exporter/clickhouselogsexporter/exporter.go:523-528 | once the channel is closed no producer is sending or will |
| `LogsPipeline.EveryRunIsSafe` | exporter/clickhouselogsexporter/exporter.go:512-627 | in every interleaving of all pushes: slots in use are the slots held and within the cap, each channel is closed at most once and not while producers remain |
| `LogsPipeline.EveryRecordExactlyOnce` | exporter/clickhouselogsexporter/exporter.go:535-593 | a push that returned uncancelled has one row per record and a usage count equal to the record count |
| `LogsPipeline.EveryReturnIsComplete` | exporter/clickhouselogsexporter/exporter.go:535-707 | the same in every run, whatever the other pushes do |
| `LogsPipeline.StuckExactlyWhen` | exporter/clickhouselogsexporter/exporter.go:618-704 | a push that has not finished has no step of its own if and only if it is wedged or starved |
| `LogsPipeline.NoDeadlock` | exporter/clickhouselogsexporter/exporter.go:523-704 | with at least one slot and no push wedged, errors and cancellation included, while a push is unfinished some push can step |
| `LogsPipeline.WorkStep` | exporter/clickhouselogsexporter/exporter.go:596-707 | every step, errors included, uses up a measure over records not launched, in flight and buffered |
| `LogsPipeline.RunLength` | exporter/clickhouselogsexporter/exporter.go:596-707 | no run is longer than a bound given by the record counts |
| `LogsPipeline.UnwedgedRunsFinish` | exporter/clickhouselogsexporter/exporter.go:596-707 | a run that cannot go on and in which no push is wedged has finished every push |
| `LogsPipeline.CalmRunsFinish` | exporter/clickhouselogsexporter/exporter.go:596-707 | an uncancelled run that cannot go on has finished every push, with each record in exactly one row |
| `LogsPipeline.CancellationCanWedge` | exporter/clickhouselogsexporter/exporter.go:669-692 | a run in which a cancelled consumer leaves a producer sending for ever |
| `LogsPipeline.NilReturnIsCompleteIff` | exporter/clickhouselogsexporter/exporter.go:535-707 | a push whose group.Wait returned nil has each record in exactly one row if and only if all producers were launched and the channel is empty, and if and only if the usage counts every record |
| `LogsPipeline.NilWaitIsCompleteIff` | exporter/clickhouselogsexporter/exporter.go:535-707 | the same in every run, cancellation and errors of any push included |
| `LogsPipeline.CancelledWaitCanReturnNil` | exporter/clickhouselogsexporter/exporter.go:535-543 | a run in which group.Wait of a cancelled push returns nil without any row |
| `ResourcesSeen.InvStep` | exporter/clickhouselogsexporter/exporter.go:183-198 | every map operation keeps inner maps apart and returned fingerprints stored |
| `ResourcesSeen.EveryoneGetsTheSameFingerprint` | exporter/clickhouselogsexporter/exporter.go:180-198 | in every interleaving all callers get the same fingerprint for a resource in a bucket, one created for it |
| `TailSampler.MakeDecision` | processor/signoztailsampler/processor.go:181-243 | the first policy with an opinion decides, none means sampled; later policies are not asked |
| `TailSampler.DeliveryStep` | processor/signoztailsampler/processor.go:143-164 | every step keeps: each batch is in its trace once, and forwarded plus in the ticker's hand is what its trace's decisions make due |
| `TailSampler.DecideDelivery` | processor/signoztailsampler/processor.go:155-163 | deciding makes each buffered batch due once more exactly if sampled |
| `TailSampler.ForwardLateDelivery` | processor/signoztailsampler/processor.go:322-331 | a late batch is forwarded by the caller that carries it, once |
| `TailSamplerTokens.ForwardedAsDecided` | processor/signoztailsampler/processor.go:143-164 | in every quiescent run a buffered batch was forwarded once per sampled decision of its trace, a late one once if the decision it met was sampled |
| `TailSamplerTokens.DecidedOnceForwardedOnce` | processor/signoztailsampler/processor.go:282-338 | with one decision: every batch exactly once if sampled, in the tick or late, never otherwise |
| `TailSamplerTokens.AdmittedOnceDecidedOnce` | processor/signoztailsampler/processor.go:284-296 | a trace whose id was admitted once is decided at most once |
| `TailSamplerDecisions.DecidedAsOftenAsPopped` | processor/signoztailsampler/processor.go:136-164 | in every quiescent run a trace has exactly one decision for each tick that took its id and found it on the table |
| `TailSamplerDecisions.PoppedIsDecided` | processor/signoztailsampler/processor.go:141-160 | each such tick is followed by a decision of that trace, with no other step of the ticker in between |
| `TailSamplerDecisions.ForwardedByWhatItMet` | processor/signoztailsampler/processor.go:311-338 | told by the arrival step: a batch that met no decision was forwarded once per sampled decision of its trace, a later one exactly if the latest decision it met was sampled |
| `TailSamplerOrder.DecisionsAreFirstInFirstOut` | processor/signoztailsampler/processor.go:136-141 | ticks take the ids in the order of their admission |
| `TailSamplerOrder.DropsAreFirstInFirstOut` | processor/signoztailsampler/processor.go:297-308 | tokens leave the delete channel in the order in which they were posted |
| `TailSamplerOrder.NothingIsDroppedWithinTheLimit` | processor/signoztailsampler/processor.go:297-308 | as long as no more than NumTraces traces have been admitted every trace is on the table and nobody drops one |
| `TailSamplerOrder.AllKeptIffWithinTheLimit` | processor/signoztailsampler/processor.go:297-308 | once everyone is idle, every trace ever admitted is on the table if and only if there have been no more than NumTraces |
| `TailSamplerReadmission.ReadmittedBatchIsForwardedTwice` | processor/signoztailsampler/processor.go:143-164 | a run in which an id dropped and admitted again is decided by two ticks and a batch is forwarded twice |
| `TailSamplerTokens.TokensStep` | processor/signoztailsampler/processor.go:300-308 | every step keeps exactly one delete token per mapped id |
| `TailSamplerTokens.TokensOfEveryRun` | processor/signoztailsampler/processor.go:282-308 | in every reachable state: one token per mapped id, no drop of an id off the table, at most NumTraces ids plus two per call in flight, and the counter wraps neither up nor down |
| `TailSamplerTokens.TableIsBounded` | processor/signoztailsampler/processor.go:300-308 | the bound on the table follows from the tokens |
| `TailSamplerTokens.QuietCounterIsExact` | processor/signoztailsampler/processor.go:360-374 | when nothing is in flight the counter is the number of mapped traces, within NumTraces |
| `TailSamplerTokens.NoCallerDeadlock` | processor/signoztailsampler/processor.go:300-308 | with NumTraces at least 1, while a call is in flight some caller can step |
| `TailSamplerProgress.EffortStep` | processor/signoztailsampler/processor.go:282-308 | every step of a caller or of the ticker other than beginning a call uses up a measure over call stages, posts left, channel, queue and tick |
| `TailSamplerProgress.RunLength` | processor/signoztailsampler/processor.go:282-338 | no run, however interleaved, takes more than nineteen steps for each call begun in it |
| `TailSamplerProgress.FinishedRunIsQuiescent` | processor/signoztailsampler/processor.go:282-338 | a run that no caller and no tick can continue has returned from every call and emptied the queue |
| `FieldScan.RanksFollowTheConfiguration` | processor/signozlogsnormalizerprocessor/fields.go:119-128 | exactly the non-blank configured fields are ranked, once each, by first mention |
| `FieldScan.FieldIndex.constructor` | processor/signozlogsnormalizerprocessor/fields.go:106-112 | an empty index is exact |
| `FieldScan.FieldIndex.Add` | processor/signozlogsnormalizerprocessor/fields.go:114-136 | the target's fields are ranked, and the index stays exact: matches are the ranks, prefixes are the parents of dotted fields |
| `FieldScan.FieldIndex.AddPrefixes` | processor/signozlogsnormalizerprocessor/fields.go:130-134 | the loop adds exactly the parent paths of a field |
| `FieldScan.BeatsIsAnOrder` | processor/signozlogsnormalizerprocessor/fields.go:196-207 | losing is a strict order on (rank, source, raw path), total up to the spelling |
| `FieldScan.PrunedHasNoHits` | processor/signozlogsnormalizerprocessor/fields.go:187-189 | nothing below a map the scan skips can match a field |
| `FieldScan.FieldIndex.Offer` | processor/signozlogsnormalizerprocessor/fields.go:171-186 | one entry is offered to each target that has its path, and to no other |
| `FieldScan.FieldIndex.ScanMap` | processor/signozlogsnormalizerprocessor/fields.go:170-193 | the pruned, indexed scan keeps for every target what looking at every nested entry would keep |
| `FieldScan.FieldIndex.Scan` | processor/signozlogsnormalizerprocessor/fields.go:162-166 | the same over all sources |
| `FieldScan.WinnerIsTheLeastHit` | processor/signozlogsnormalizerprocessor/fields.go:194-207 | a target is found if and only if some entry matches and parses; no hit comes before the winner in rank, then body before attributes before derived, then spelling |
| `FieldPaths.HitsAreOffered` | processor/signozlogsnormalizerprocessor/fields.go:168-191 | the hits are exactly the ends of chains of nested entries whose keys, normalized and joined by dots, are a field, with its first rank, and whose value parses |
| `FieldPaths.WinnerIsTheFirstOffer` | processor/signozlogsnormalizerprocessor/fields.go:162-207 | found exactly if there is such a chain, and the winner is one that no other comes before |
| `FieldScan.IterationOrderDoesNotMatter` | processor/signozlogsnormalizerprocessor/fields.go:168-193 | in any iteration order the same rank, source and raw path win, and the winner is one of the same hits |
| `Regroup.KeyOfIsStable` | processor/signozlogsnormalizerprocessor/infer.go:149-156 | a record inferred into a scope infers the same scope from there |
| `Regroup.RemoveMarked` | processor/signozlogsnormalizerprocessor/infer.go:31-40 | exactly the marked entries go, and none past the marks |
| `Regroup.ResourceLogs.AppendScope` | processor/signozlogsnormalizerprocessor/infer.go:84-93 | the new scope copies attributes and schema and carries the key |
| `Regroup.ResourceLogs.ProcessScope` | processor/signozlogsnormalizerprocessor/infer.go:42-82 | the scope keeps the records of its own key, the new scopes are appended, and emptied is told exactly |
| `Regroup.ResourceLogs.ProcessResource` | processor/signozlogsnormalizerprocessor/infer.go:12-29 | the scopes become the surviving ones and then the new ones of each scope in turn |
| `Regroup.SpawnedGroups` | processor/signozlogsnormalizerprocessor/infer.go:63-73 | a source's new scopes have distinct keys other than its own; each holds exactly the records of its key, in order |
| `Regroup.RegroupingConservesRecords` | processor/signozlogsnormalizerprocessor/infer.go:12-93 | every record is there exactly as often as before |
| `Regroup.RecordsGoHome` | processor/signozlogsnormalizerprocessor/infer.go:42-93 | every record ends up under its inferred name and version, with its scope's attributes and schema |
| `Regroup.MissingPartsAreInferred` | processor/signozlogsnormalizerprocessor/infer.go:42-58 | every record ends up in a scope that keeps a name and a version that are there and takes a missing one from the record if the record has it |
| `Regroup.InferredFromItsScope` | processor/signozlogsnormalizerprocessor/infer.go:42-93 | every record of the result was in a scope that its new scope completes in this way |
| `Regroup.NamedScopesAreLeftAlone` | processor/signozlogsnormalizerprocessor/infer.go:45-58 | a resource whose scopes all have a name and a version is left exactly as it is |
| `Regroup.LeftAloneIff` | processor/signozlogsnormalizerprocessor/infer.go:42-82 | a resource is left as it is if and only if no record has a part that its scope is missing |
| `Regroup.ScopesComeFrom` | processor/signozlogsnormalizerprocessor/infer.go:12-82 | every scope of the result is a trimmed scope the pass did not empty, or one source's records of one key |
| `Regroup.RegroupingIsIdempotent` | processor/signozlogsnormalizerprocessor/infer.go:12-29 | the appended scopes need no visit: a second pass changes nothing |
| `LatencyHistogram.SearchFloat64s` | processor/signozspanmetricsprocessor/processor.go:1081-1083 | the binary search stays in range for any bounds and finds the interval for ascending ones |
| `LatencyHistogram.BucketIsTheInterval` | processor/signozspanmetricsprocessor/processor.go:1081-1083 | with ascending bounds a value is in one bucket only |
| `LatencyHistogram.BucketsSumToCount` | processor/signozspanmetricsprocessor/processor.go:1070-1085 | whatever the bounds, buckets add up to the count, and count and sum are those of the values seen |
| `LatencyHistogram.BucketsCountTheirInterval` | processor/signozspanmetricsprocessor/processor.go:1070-1085 | with ascending bounds bucket k counts exactly the values in (bound k-1, bound k] |
| `DimensionCache.AddFinds` | processor/signozspanmetricsprocessor/internal/cache/cache.go:57-60 | adding forgets no key: what has to make room is still found |
| `DimensionCache.GetKeepsEverything` | processor/signozspanmetricsprocessor/internal/cache/cache.go:62-76 | looking up changes nothing that can be found, and revives an evicted key |
| `DimensionCache.RecordOk` | processor/signozspanmetricsprocessor/processor.go:1070-1085 | recording keeps every histogram exact and every key's dimensions retrievable |
| `DimensionCache.CollectingNeverFails` | processor/signozspanmetricsprocessor/processor.go:631-665 | collecting a sound family never takes the error return and forgets nothing, in any key order |
| `DimensionCache.CleanUpOk` | processor/signozspanmetricsprocessor/processor.go:583-614 | the clean-up after a build leaves every remaining key with its dimensions |
| `DimensionCache.EmittedCountsAddUp` | processor/signozspanmetricsprocessor/processor.go:778-803 | in any key order the counts emitted add up to the samples in memory |
| `DimensionRecency.LiveKeysWereUsedLast` | processor/signozspanmetricsprocessor/internal/cache/cache.go:57-76 | after any uses and clean-ups, every live key was used after every used key that is not live, and one is missing only if the cache is full |
| `SpanMetrics.TrackCapped` | processor/signozspanmetricsprocessor/processor.go:1260-1288 | tracking keeps the caps |
| `SpanMetrics.NamesAreCapped` | processor/signozspanmetricsprocessor/processor.go:1260-1288 | in every run at most maxServices+2 services and maxOperations+2 operations of each are tracked |
| `SpanMetricsCaps.ServiceCapIsReached` | processor/signozspanmetricsprocessor/processor.go:1262-1287 | for every limit some run of spans tracks maxServices+2 services, so the cap is tight |
| `SpanMetricsCaps.OperationCapIsReached` | processor/signozspanmetricsprocessor/processor.go:1262-1287 | for every limit some run of spans tracks maxOperations+2 operations of one service |
| `SpanMetrics.EveryBuildSucceeds` | processor/signozspanmetricsprocessor/processor.go:561-582 | in every run of spans and flushes no build takes an error return |
| `SpanMetrics.DeltaCountsAreConserved` | processor/signozspanmetricsprocessor/processor.go:616-619 | in every delta run counts emitted plus counts in memory are, family by family, what the accepted spans were worth |
| `SpanMetrics.PointsAreExact` | processor/signozspanmetricsprocessor/processor.go:633-665 | one point per key, each the histogram of exactly its key's samples since the last reset, with the cached dimensions |
| `SpanMetrics.EveryBuildIsExact` | processor/signozspanmetricsprocessor/processor.go:561-582 | in every run each build emits such points for all five families; buckets sum to count and count their own intervals |
| `SpanMetricsCumulative.CumulativeBuildKeepsLiveKeys` | processor/signozspanmetricsprocessor/processor.go:583-619 | a cumulative build keeps exactly the keys that are live, each with its histogram, samples and dimensions |
| `SpanMetricsCumulative.CumulativeCountsAreComplete` | processor/signozspanmetricsprocessor/processor.go:561-623 | in every cumulative run a build never emits more than all spans since the start were worth, and exactly that if and only if no earlier build found more keys in the family than the cache holds |
| `SpanMetricsKeys.SameNamedKeyIff` | processor/signozspanmetricsprocessor/processor.go:1260-1288 | below the caps and with readable keys, two spans share a key exactly if service, operation, dimension text and, for delta, time bucket agree |
| `SpanMetricsKeys.FamiliesKeepTheirTextsApart` | processor/signozspanmetricsprocessor/processor.go:985-1001 | latency, call and exponential families each go by their own dimension text |
| `SpanMetricsKeys.CustomFamiliesKeepTheirTextsApart` | processor/signozspanmetricsprocessor/processor.go:1003-1024 | external calls go by address and text, database calls by their text |
| `SpanMetricsKeys.KeyKeepsItsDimensions` | processor/signozspanmetricsprocessor/processor.go:1365-1414 | a key has the names, as capped by then, and text of the span that brought it for as long as it is known |
| `SpanMetrics.Processor.BuildKey` | processor/signozspanmetricsprocessor/processor.go:1260-1288 | key and tracker follow the caps |
| `SpanMetrics.Processor.AggregateMetricsForSpan` | processor/signozspanmetricsprocessor/processor.go:969-1026 | a span updates exactly the families it belongs to, in turn |
| `SpanMetrics.Processor.BuildMetrics` | processor/signozspanmetricsprocessor/processor.go:561-623 | some key order gives this build, it succeeds, and the processor is sound afterwards |
| `SpanMetrics.UpdateFamily` | processor/signozspanmetricsprocessor/processor.go:1070-1085 | the look-up, the binary search and the bucket update record one sample |
| `SpanMetrics.Collect` | processor/signozspanmetricsprocessor/processor.go:633-665 | the loop over the histograms emits one point per key and does not fail |
| `SpanMetrics.DropDead` | processor/signozspanmetricsprocessor/processor.go:589-593 | the clean-up loop drops exactly the histograms whose keys are not live |
| `MetadataBatch.Batch.AddMetadata` | exporter/signozclickhousemetrics/batch.go:34-81 | each attribute of the call is told once, with a first time that was never set read as now; rows that were there only widen, and each new one has the values of the metric and one of its attributes |
| `MetadataBatch.Batch.AddRow` | exporter/signozclickhousemetrics/batch.go:54-79 | a mention widens its identity's row or adds one |
| `MetadataBatch.WidenIndexed` | exporter/signozclickhousemetrics/batch.go:54-64 | widening keeps the index exact and each row the summary of its mentions |
| `MetadataBatch.AppendIndexed` | exporter/signozclickhousemetrics/batch.go:65-79 | so does appending |
| `MetadataBatch.OneRowPerIdentity` | exporter/signozclickhousemetrics/batch.go:17-18 | rows have distinct identities and every identity mentioned has its row |
| `MetadataBatch.RowsAreDetermined` | exporter/signozclickhousemetrics/batch.go:54-79 | the mentions determine each row: least first time, greatest last time, the rest from the first mention |
| `MetadataBatch.ToldOnceEach` | exporter/signozclickhousemetrics/batch.go:44-80 | whatever was told is in exactly one row, with the same temporality, metric name, attribute name, type, datatype and value, and within its times |
| `MetadataBatch.SharedRowIff` | exporter/signozclickhousemetrics/batch.go:46-54 | two attributes of any calls share a row if and only if all six values agree |
| `MetadataBatch.RowsAreTold` | exporter/signozclickhousemetrics/batch.go:54-79 | a row is described as by the first that was told of its identity; its times are the least first and greatest last told |
| `QueryLogScraper.Receiver.ScrapeQueryLogIfReady` | receiver/clickhousesystemtablesreceiver/receiver.go:79-142 | cursor and answer of every attempt, with 32-bit wrap-around |
| `QueryLogScraper.PrematureExactlyOnOverflow` | receiver/clickhousesystemtablesreceiver/receiver.go:97-107 | a scrape goes ahead before its window is due if and only if the due time does not fit in 32 bits |
| `QueryLogScraper.WaitIsTheTimeLeft` | receiver/clickhousesystemtablesreceiver/receiver.go:103-142 | wherever the due time fits in 32 bits the wait is the time left until the next window is due, or zero; after an error it is the interval |
| `QueryLogScraper.PushKeepsTilingIff` | receiver/clickhousesystemtablesreceiver/receiver.go:93-129 | a successful push keeps the tiling if and only if the end of its window fits in 32 bits |
| `QueryLogScraper.TilesExactlyWhenItFits` | receiver/clickhousesystemtablesreceiver/receiver.go:93-129 | every run from a non-zero server time tiles time if and only if the windows it pushed end within 32 bits, whatever the attempts that pushed nothing |
| `QueryLogScraper.WindowsTileTime` | receiver/clickhousesystemtablesreceiver/receiver.go:93-129 | over every such run each pushed window spans one interval from where the one before ended, the first from the first server time |
| `QueryLogScraper.NoWindowTooEarly` | receiver/clickhousesystemtablesreceiver/receiver.go:100-107 | after any run, an attempt whose own due time fits in 32 bits scrapes no window before its end plus the delay |
| `QueryLogScraper.WrappedCursorRepeatsAWindow` | receiver/clickhousesystemtablesreceiver/receiver.go:93-95 | a run of two attempts, with interval and delay one second, whose cursor wraps to zero and which pushes the same window twice |
| `KafkaClaim.WithMemoryLimiter` | receiver/signozkafkareceiver/kafka_receiver.go:461-496 | the first result that is not high memory decides; nil exactly if the last consume returned nil; one pause, resumed on every return but the end of the session |
| `KafkaClaim.Retry` | receiver/signozkafkareceiver/kafka_receiver.go:475-495 | the retry loop: it ends at the first wake that is not high memory again and resumes unless the session ended |
| `KafkaClaim.ConsumeClaim` | receiver/signozkafkareceiver/kafka_receiver.go:571-650 | at every point marked and consumed messages are prefixes of the claim and in step; where it stops, what is marked then and how often it commits, in every marking mode |
| `KafkaClaim.HandleMessage` | receiver/signozkafkareceiver/kafka_receiver.go:578-641 | one turn of the loop: taken or not, marked, committed |
| `KafkaClaim.MarkedWasConsumed` | receiver/signozkafkareceiver/kafka_receiver.go:632-637 | with marking after and not on errors, marked messages are consumed ones, at most one lags, and a commit covers exactly the consumed ones |
| `SanitizeJson.RewriteFields` | utils/utils.go:62-65 | replacing an object's fields where they stand sanitises each of them |
| `SanitizeJson.RewriteItems` | utils/utils.go:70-73 | so does the loop over an array's items, one array level further down |
| `SanitizeJson.Rewrite` | utils/utils.go:48-85 | the recursion, with a measure on the limit flag and then the tree |
| `SanitizeJson.SanitizedIsClean` | utils/utils.go:50-57 | no NaN, infinity or float outside the open Int64 range is left, with or without the depth limit |
| `SanitizeJson.SanitizedIsShallow` | utils/utils.go:58-73 | a result stays within the limits wherever it is put |
| `SanitizeJson.SanitizedIsAcceptable` | utils/utils.go:34-46 | the result is clean, at most 1000 container levels deep and 128 directly nested arrays long |
| `SanitizeJson.UnchangedIffAcceptable` | utils/utils.go:40-46 | a tree is left as it is if and only if it is acceptable |
| `SanitizeJson.SanitizingIsIdempotent` | utils/utils.go:40-46 | sanitising twice is sanitising once |
| `SanitizedPositions.SanitizedByPosition` | utils/utils.go:48-85 | at every place no container past a limit encloses: NaN and infinities become null, a finite float outside Int64 its formatted number, other leaves stay, containers keep kind, length and names, and one past a limit becomes the text of its own cleaned copy |
| `SanitizedPositions.SanitizedExactly` | utils/utils.go:48-85 | a tree is the result if and only if every place is so |

## Left out

- Integers that grow without limit in the model: int64 milliseconds near the top of their range, uint64 histogram counts and row counts.
- The early return at exporter/clickhouselogsexporter/exporter.go:604, which leaves producers running; serialising a resource is taken to succeed.
- What a logs producer computes from its record, what the consumer writes besides the row, and everything after `group.Wait` returns.
- `LogsPipeline.NoDeadlock`: does not cover wedged pushes, because the send does not watch the cancelled context and never returns; `StuckExactlyWhen` says exactly when a push is stuck.
- `TailSampler.MakeDecision`: takes the policies as the list of their verdicts; the constructor copies its policies into an empty slice, so no policy order follows from it, and evaluation errors only change a metric.
- The decision batcher of the tail sampler beyond this: each id added comes out of one tick, in order. A trace's spans arrive as one batch per call, and NumTraces is at least 1.
- Eviction inside fastcache beyond forgetting arbitrary entries, and hash collisions between ids.
- `FieldScan.FieldIndex.Scan`: does not keep the map an entry was found in, so removing moved fields is not modelled; trimming, lower-casing and the parsers are arbitrary functions.
- `Regroup.ResourceLogs.ProcessScope`: records carry what the scan finds for scope name and version; rewriting of bodies, severities and trace context in place is not modelled.
- `SpanMetrics.Processor.BuildMetrics`: the error returns are part of `Built` and never taken; what a key evicted in a cumulative run had counted is not followed further.
- Exemplars, the attribute cardinality log, timestamps of data points, and how dimension values are looked up; keys are an arbitrary function of their parts and may collide. Exponential histograms keep only count and sum.
- `QueryLogScraper.TilesExactlyWhenItFits`: the first server time is not zero, which the code reads as a cursor that was never set.
- `KafkaClaim.ConsumeClaim`: one generic handler; decoding, tracing spans and metrics of the three handlers are left out, and a session that ends between messages is a claim with fewer messages.
- `SanitizeJson.Rewrite`: rewrites sequences held by value, so sharing between subtrees of the original tree is not modelled.
- `MetadataBatch.Batch.AddMetadata`: samples, time series and histograms of the batch are plain appends and not modelled.
- Database statements, network, clocks, logging and telemetry are parameters or absent.
- Factories, configuration structs other than the one above, receivers' protocols, schema migration, OpAMP, pricing and metering: no invariant over a run worth stating here.
