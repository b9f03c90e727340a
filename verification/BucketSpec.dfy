/**
 Value-level specification of the bucket set: what Plan, Apply and createBucket do to the map from
 live bucket start to registered ids, and what every sequence of such calls keeps.
 */
module BucketSpec {
  import opened TimeBuckets

  type Live = map<Millis, set<Id>>

  datatype Params = Params(width: int, preWrite: int, maxBuckets: nat, hash: Id -> nat) {
    ghost predicate Valid() {
      width > 0 && 0 <= preWrite <= width && maxBuckets >= 2
    }
  }

  /** The least element of keys and start together. */
  ghost predicate IsOldest(o: Millis, keys: set<Millis>, start: Millis) {
    (o in keys || o == start) && o <= start && forall x :: x in keys ==> o <= x
  }

  lemma {:induction false} OldestExists(keys: set<Millis>, start: Millis)
    ensures exists o: Millis :: IsOldest(o, keys, start)
    decreases |keys|
  {
    if keys == {} {
      assert IsOldest(start, keys, start);
    } else {
      var x :| x in keys;
      OldestExists(keys - {x}, start);
      var o: Millis :| IsOldest(o, keys - {x}, start);
      var least := if x < o then x else o;
      assert forall y :: y in keys ==> y == x || y in keys - {x};
      assert IsOldest(least, keys, start);
    }
  }

  ghost function Oldest(keys: set<Millis>, start: Millis): (o: Millis)
    ensures IsOldest(o, keys, start)
  {
    OldestExists(keys, start);
    var o: Millis :| IsOldest(o, keys, start);
    o
  }

  ghost function Create(live: Live, max: nat, start: Millis): Live {
    if start in live then live
    else if |live| < max then live[start := {}]
    else
      var oldest := Oldest(live.Keys, start);
      if oldest == start then live else (live - {oldest})[start := {}]
  }

  // ---- the live starts are the largest starts ever asked for ----

  ghost predicate TopK(live: set<Millis>, seen: set<Millis>, k: nat) {
    && live <= seen
    && |live| == (if |seen| < k then |seen| else k)
    && forall l, s :: l in live && s in seen && s !in live ==> s < l
  }

  lemma RemoveKey<K, V>(m: map<K, V>, k: K)
    requires k in m
    ensures |m - {k}| == |m| - 1
  {
    assert (m - {k}).Keys == m.Keys - {k};
    assert |m.Keys - {k}| == |m.Keys| - 1 && |m.Keys| == |m| && |(m - {k}).Keys| == |m - {k}|;
  }

  lemma AddKey<K, V>(m: map<K, V>, k: K, v: V)
    requires k !in m
    ensures |m[k := v]| == |m| + 1
  {
    assert m[k := v].Keys == m.Keys + {k};
    assert |m.Keys + {k}| == |m.Keys| + 1 && |m.Keys| == |m| && |m[k := v].Keys| == |m[k := v]|;
  }

  lemma SubsetOfSameSize<T>(a: set<T>, b: set<T>)
    requires a <= b && |a| == |b|
    ensures a == b
  {
    assert |b - a| == |b| - |a|;
    assert b == a + (b - a);
  }

  lemma CreateKeysCardinality(live: Live, max: nat, start: Millis)
    requires max >= 1 && |live| <= max
    ensures var keys := Create(live, max, start).Keys;
            var oldest := Oldest(live.Keys, start);
            && (start in live ==> keys == live.Keys)
            && (start !in live && |live| < max ==> keys == live.Keys + {start} && |keys| == |live| + 1)
            && (start !in live && |live| == max && oldest == start ==> keys == live.Keys)
            && (start !in live && |live| == max && oldest != start ==>
                  oldest in live && keys == live.Keys - {oldest} + {start} && |keys| == max)
  {
    assert |live.Keys| == |live|;
    var oldest := Oldest(live.Keys, start);
    if start !in live && oldest != start {
      assert |live.Keys - {oldest}| == |live| - 1;
      assert |live.Keys - {oldest} + {start}| == |live|;
    }
  }

  lemma CreateKeepsTopK(live: Live, max: nat, start: Millis, seen: set<Millis>)
    requires max >= 1 && TopK(live.Keys, seen, max)
    ensures TopK(Create(live, max, start).Keys, seen + {start}, max)
  {
    CreateKeysCardinality(live, max, start);
    if start !in live {
      if |live| < max {
        SubsetOfSameSize(live.Keys, seen);
        assert seen + {start} == live.Keys + {start};
      } else {
        assert |live.Keys| == max;
        TopKSizes(live.Keys, seen + {start}, max);
        var oldest := Oldest(live.Keys, start);
        if oldest != start {
          TopKSizes(live.Keys - {oldest} + {start}, seen + {start}, max);
        }
      }
    } else {
      assert seen + {start} == seen;
    }
  }

  lemma TopKSizes(part: set<Millis>, whole: set<Millis>, k: nat)
    requires part <= whole && |part| == k
    ensures |whole| >= k
  {
    assert |whole - part| == |whole| - |part|;
  }

  lemma TopKUnique(a: set<Millis>, b: set<Millis>, seen: set<Millis>, k: nat)
    requires TopK(a, seen, k) && TopK(b, seen, k)
    ensures a == b
  {
    if a != b {
      if a <= b {
        SubsetOfSameSize(a, b);
      } else if b <= a {
        SubsetOfSameSize(b, a);
      }
    }
  }

  /** A start outside the top k of a set stays outside the top k of every larger set. */
  lemma OutsideTopKStaysOutside(live: set<Millis>, seen: set<Millis>, live': set<Millis>, seen': set<Millis>, k: nat,
                                start: Millis)
    requires TopK(live, seen, k) && TopK(live', seen', k) && seen <= seen'
    requires start in seen && start !in live
    ensures start !in live'
  {
    if start in live' {
      assert |seen - live| == |seen| - |live|;
      assert seen - live != {} by { assert start in seen - live; }
      assert |live| == k;
      assert live <= live' by {
        forall l | l in live ensures l in live' {
          assert start < l;
        }
      }
      assert |live'| == k by { TopKSizes(live, seen', k); }
      SubsetOfSameSize(live, live');
    }
  }

  ghost function CreateAll(live: Live, max: nat, starts: seq<Millis>): Live {
    if starts == [] then live else Create(CreateAll(live, max, starts[..|starts| - 1]), max, starts[|starts| - 1])
  }

  ghost function Elements(starts: seq<Millis>): set<Millis> {
    set s | s in starts
  }

  lemma {:induction false} CreateAllKeepsTopK(live: Live, max: nat, starts: seq<Millis>)
    requires max >= 1 && live == map[]
    ensures TopK(CreateAll(live, max, starts).Keys, Elements(starts), max)
  {
    if starts == [] {
      assert Elements(starts) == {};
    } else {
      var front, last := starts[..|starts| - 1], starts[|starts| - 1];
      CreateAllKeepsTopK(live, max, front);
      CreateKeepsTopK(CreateAll(live, max, front), max, last, Elements(front));
      ElementsSnoc(starts);
    }
  }

  lemma ElementsSnoc(starts: seq<Millis>)
    requires starts != []
    ensures Elements(starts) == Elements(starts[..|starts| - 1]) + {starts[|starts| - 1]}
  {
    assert starts == starts[..|starts| - 1] + [starts[|starts| - 1]];
  }

  /** Whatever was asked for, in whatever order, exactly the max largest distinct starts are live. */
  lemma LiveStartsAreTheLargest(max: nat, starts: seq<Millis>)
    requires max >= 1
    ensures TopK(CreateAll(map[], max, starts).Keys, Elements(starts), max)
  {
    CreateAllKeepsTopK(map[], max, starts);
  }

  /** An evicted or refused start never comes back. */
  lemma EvictedStartNeverReturns(max: nat, before: seq<Millis>, after: seq<Millis>, start: Millis)
    requires max >= 1
    requires start in before && start !in CreateAll(map[], max, before)
    ensures start !in CreateAll(map[], max, before + after)
  {
    LiveStartsAreTheLargest(max, before);
    LiveStartsAreTheLargest(max, before + after);
    OutsideTopKStaysOutside(
      CreateAll(map[], max, before).Keys, Elements(before),
      CreateAll(map[], max, before + after).Keys, Elements(before + after), max, start);
  }

  lemma LiveStartsIgnoreRequestOrder(max: nat, a: seq<Millis>, b: seq<Millis>)
    requires max >= 1 && Elements(a) == Elements(b)
    ensures CreateAll(map[], max, a).Keys == CreateAll(map[], max, b).Keys
  {
    LiveStartsAreTheLargest(max, a);
    LiveStartsAreTheLargest(max, b);
    TopKUnique(CreateAll(map[], max, a).Keys, CreateAll(map[], max, b).Keys, Elements(a), max);
  }

  /** Exactly when making room for a new start pushes out a given live one. */
  lemma EvictsExactlyTheOldest(live: Live, max: nat, start: Millis, victim: Millis)
    requires 1 <= max && |live| <= max && victim in live && start !in live
    ensures victim !in Create(live, max, start) <==>
            |live| == max && victim < start && forall x :: x in live ==> victim <= x
  {
    CreateKeysCardinality(live, max, start);
  }

  // ---- Plan and Apply ----

  predicate TooFarAhead(p: Params, start: Millis, now: Millis)
    requires p.width > 0
  {
    start > BucketStart(p.width, now) + p.width
  }

  ghost function GetOrCreate(p: Params, live: Live, start: Millis, now: Millis): Live
    requires p.Valid()
  {
    if TooFarAhead(p, start, now) then live else Create(live, p.maxBuckets, start)
  }

  ghost predicate Has(p: Params, live: Live, id: Id, start: Millis, now: Millis)
    requires p.Valid()
  {
    !TooFarAhead(p, start, now) && start in live && id in live[start]
  }

  predicate Eligible(p: Params, id: Id, start: Millis, now: Millis) {
    p.preWrite > 0 && InPreWriteWindow(p.width, p.preWrite, p.hash(id), start, now)
  }

  datatype Answer = Answer(current: bool, next: bool)

  /** The live map after Plan: at most the planned bucket and its successor are created. */
  ghost function PlanLive(p: Params, live: Live, id: Id, start: Millis, now: Millis): Live
    requires p.Valid()
  {
    var here := GetOrCreate(p, live, start, now);
    if Has(p, here, id, start, now) && Eligible(p, id, start, now)
    then GetOrCreate(p, here, start + p.width, now)
    else here
  }

  ghost function PlanAnswer(p: Params, live: Live, id: Id, start: Millis, now: Millis): Answer
    requires p.Valid()
  {
    var here := GetOrCreate(p, live, start, now);
    if !Has(p, here, id, start, now) then Answer(true, false)
    else if !Eligible(p, id, start, now) then Answer(false, false)
    else
      var there := GetOrCreate(p, here, start + p.width, now);
      Answer(false, !TooFarAhead(p, start + p.width, now) && start + p.width in there && id !in there[start + p.width])
  }

  /** A clock reading at which a bucket is eligible is never too early for the next one. */
  lemma EligibleIsInReach(p: Params, id: Id, start: Millis, now: Millis)
    requires p.Valid() && Aligned(p.width, start) && Eligible(p, id, start, now)
    ensures !TooFarAhead(p, start + p.width, now)
  {
    EligibleTimesAreASuffix(p.width, p.preWrite, p.hash(id), start);
    BucketStartBrackets(p.width, now);
    if now >= 0 {
      AlignedGap(p.width, BucketStart(p.width, now), start);
    }
  }

  /** What a call on its own answers, told by the map before it. It asks to register unless the bucket is live
      and holds the id; it asks for the next bucket exactly if the id is held, eligible, and not held there. */
  lemma PlanAnswersExactly(p: Params, live: Live, id: Id, start: Millis, now: Millis)
    requires p.Valid() && |live| <= p.maxBuckets
    ensures var held := start <= BucketStart(p.width, now) + p.width && start in live && id in live[start];
            var heldNext := start + p.width in live && id in live[start + p.width];
            && (PlanAnswer(p, live, id, start, now).current <==> !held)
            && (PlanAnswer(p, live, id, start, now).next
                <==> held && Eligible(p, id, start, now) && !heldNext && start <= BucketStart(p.width, now))
  {
    if start in live && start + p.width !in live {
      CreateKeysCardinality(live, p.maxBuckets, start + p.width);
    }
  }

  /** For an aligned start being eligible is near enough, and whenever the next bucket is asked for it is live. */
  lemma AlignedPlanAnswersExactly(p: Params, live: Live, id: Id, start: Millis, now: Millis)
    requires p.Valid() && |live| <= p.maxBuckets && Aligned(p.width, start)
    ensures PlanAnswer(p, live, id, start, now).next
            <==> && start in live && id in live[start] && Eligible(p, id, start, now)
                 && !(start + p.width in live && id in live[start + p.width])
    ensures PlanAnswer(p, live, id, start, now).next ==>
              && start + p.width in PlanLive(p, live, id, start, now)
              && id !in PlanLive(p, live, id, start, now)[start + p.width]
  {
    PlanAnswersExactly(p, live, id, start, now);
    if Eligible(p, id, start, now) {
      EligibleIsInReach(p, id, start, now);
    }
  }

  /** Registering one row; the cache may drop entries of its own accord (forgotten). */
  ghost function ApplyRow(live: Live, id: Id, start: Millis, forgotten: set<Id>): Live {
    if start in live then live[start := live[start] + {id} - forgotten] else live
  }

  // ---- runs under a non-decreasing clock ----

  datatype Op =
    | PlanOp(id: Id, start: Millis, now: Millis)
    | ApplyOp(id: Id, start: Millis, forgotten: set<Id>)

  ghost function Step(p: Params, live: Live, op: Op): Live
    requires p.Valid()
  {
    match op
    case PlanOp(id, start, now) => PlanLive(p, live, id, start, now)
    case ApplyOp(id, start, forgotten) => ApplyRow(live, id, start, forgotten)
  }

  ghost function RunLive(p: Params, ops: seq<Op>): Live
    requires p.Valid()
  {
    if ops == [] then map[] else Step(p, RunLive(p, ops[..|ops| - 1]), ops[|ops| - 1])
  }

  /** Starts are multiples of the width; clock readings are non-negative, never go back and end by now. */
  ghost predicate ClockedRun(p: Params, ops: seq<Op>, now: Millis) {
    && (forall i :: 0 <= i < |ops| && ops[i].PlanOp? ==> Aligned(p.width, ops[i].start) && 0 <= ops[i].now <= now)
    && (forall i, j :: 0 <= i < j < |ops| && ops[i].PlanOp? && ops[j].PlanOp? ==> ops[i].now <= ops[j].now)
  }

  /** Every live start is aligned and no further than one bucket past the bucket of now. */
  ghost predicate WithinHorizon(p: Params, live: Live, now: Millis)
    requires p.Valid()
  {
    && |live| <= p.maxBuckets
    && forall s :: s in live ==> Aligned(p.width, s) && s <= BucketStart(p.width, now) + p.width
  }

  lemma CreateWithinHorizon(p: Params, live: Live, start: Millis, now: Millis)
    requires p.Valid() && WithinHorizon(p, live, now) && Aligned(p.width, start)
    ensures WithinHorizon(p, GetOrCreate(p, live, start, now), now)
  {
    CreateKeysCardinality(live, p.maxBuckets, start);
    assert |Create(live, p.maxBuckets, start)| == |Create(live, p.maxBuckets, start).Keys|;
  }

  lemma BucketStartMonotone(width: int, s: Millis, t: Millis)
    requires width > 0 && 0 <= s <= t
    ensures BucketStart(width, s) <= BucketStart(width, t)
  {
    BucketStartBrackets(width, s);
    BucketStartBrackets(width, t);
    if BucketStart(width, s) > BucketStart(width, t) {
      MultipleOrder(width, TruncDiv(t, width) + 1, TruncDiv(s, width));
      assert (TruncDiv(t, width) + 1) * width == BucketStart(width, t) + width;
      MultipleOrder(width, TruncDiv(s, width), TruncDiv(t, width));
    }
  }

  lemma HorizonAdvances(p: Params, live: Live, t: Millis, now: Millis)
    requires p.Valid() && WithinHorizon(p, live, t) && 0 <= t <= now
    ensures WithinHorizon(p, live, now)
  {
    BucketStartMonotone(p.width, t, now);
  }

  lemma PlanWithinHorizon(p: Params, live: Live, id: Id, start: Millis, now: Millis)
    requires p.Valid() && WithinHorizon(p, live, now) && Aligned(p.width, start)
    ensures WithinHorizon(p, PlanLive(p, live, id, start, now), now)
  {
    CreateWithinHorizon(p, live, start, now);
    AlignedNext(p.width, start);
    CreateWithinHorizon(p, GetOrCreate(p, live, start, now), start + p.width, now);
  }

  lemma ApplyKeepsStarts(live: Live, id: Id, start: Millis, forgotten: set<Id>)
    ensures ApplyRow(live, id, start, forgotten).Keys == live.Keys
    ensures |ApplyRow(live, id, start, forgotten)| == |live|
  {
    var after := ApplyRow(live, id, start, forgotten);
    assert after.Keys == live.Keys;
    assert |after.Keys| == |after| && |live.Keys| == |live|;
  }

  lemma {:induction false} RunWithinHorizon(p: Params, ops: seq<Op>, now: Millis)
    requires p.Valid() && ClockedRun(p, ops, now) && now >= 0
    ensures WithinHorizon(p, RunLive(p, ops), now)
  {
    if ops != [] {
      var n := |ops| - 1;
      var live := RunLive(p, ops[..n]);
      match ops[n] {
        case ApplyOp(id, start, forgotten) =>
          RunWithinHorizon(p, ops[..n], now);
          ApplyKeepsStarts(live, id, start, forgotten);
        case PlanOp(id, start, t) =>
          RunWithinHorizon(p, ops[..n], t);
          PlanWithinHorizon(p, live, id, start, t);
          HorizonAdvances(p, PlanLive(p, live, id, start, t), t, now);
      }
    }
  }

  /** For calls one at a time: once a Plan finds its id registered and eligible, opening the next bucket leaves the
      current one live with its ids, and the next bucket is open as well. */
  lemma PreWriteNeverEvictsCurrent(p: Params, ops: seq<Op>, id: Id, start: Millis, now: Millis)
    requires p.Valid() && ClockedRun(p, ops, now) && now >= 0 && Aligned(p.width, start)
    requires !PlanAnswer(p, RunLive(p, ops), id, start, now).current && Eligible(p, id, start, now)
    ensures var live := Step(p, RunLive(p, ops), PlanOp(id, start, now));
            start in live && start + p.width in live && id in live[start]
  {
    RunWithinHorizon(p, ops, now);
    PreWriteKeepsCurrent(p, RunLive(p, ops), id, start, now);
  }

  lemma PreWriteKeepsCurrent(p: Params, live: Live, id: Id, start: Millis, now: Millis)
    requires p.Valid() && WithinHorizon(p, live, now) && now >= 0 && Aligned(p.width, start)
    requires !PlanAnswer(p, live, id, start, now).current && Eligible(p, id, start, now)
    ensures var after := PlanLive(p, live, id, start, now);
            start in after && start + p.width in after && id in after[start]
  {
    var here := GetOrCreate(p, live, start, now);
    CreateWithinHorizon(p, live, start, now);
    assert start == BucketStart(p.width, now) by {
      assert start <= now < start + p.width by { EligibleTimesAreASuffix(p.width, p.preWrite, p.hash(id), start); }
      BucketStartUnique(p.width, start, now);
    }
    NextBucketSparesCurrent(p, here, start, now);
  }

  lemma NextBucketSparesCurrent(p: Params, live: Live, start: Millis, now: Millis)
    requires p.Valid() && WithinHorizon(p, live, now)
    requires start in live && start == BucketStart(p.width, now)
    ensures var after := Create(live, p.maxBuckets, start + p.width);
            start in after && start + p.width in after && after[start] == live[start]
  {
    var next := start + p.width;
    CreateKeysCardinality(live, p.maxBuckets, next);
    if next !in live && |live| == p.maxBuckets {
      assert live.Keys != {start} by { assert |live.Keys| >= 2; assert |{start}| == 1; }
      var other :| other in live.Keys && other != start;
      AlignedGap(p.width, start, other);
      assert other < start;
    }
  }

  /** For one call on its own, with any clock: the pre-write of a registered id evicts its own bucket exactly when
      the successor has to be created in a full set and no older bucket is live. */
  lemma PreWriteEvictsCurrentIff(p: Params, live: Live, id: Id, start: Millis, now: Millis)
    requires p.Valid() && |live| <= p.maxBuckets && Has(p, live, id, start, now) && Eligible(p, id, start, now)
    ensures start !in PlanLive(p, live, id, start, now) <==>
            && !TooFarAhead(p, start + p.width, now) && start + p.width !in live
            && |live| == p.maxBuckets && forall x :: x in live ==> start <= x
  {
    if start + p.width !in live {
      EvictsExactlyTheOldest(live, p.maxBuckets, start + p.width, start);
    }
  }

  const STALE_OPS: seq<Op> := [PlanOp(7, 0, 0), ApplyOp(7, 0, {}), PlanOp(8, 20000, 10000)]

  lemma StaleOpsLive(p: Params)
    requires p.width == 10000 && p.preWrite == 5000 && p.maxBuckets == 2 && p.hash(7) == 0
    ensures RunLive(p, STALE_OPS) == map[0 := {7}, 20000 := {}]
  {
    var ops := STALE_OPS;
    assert ops[..2] == [ops[0], ops[1]] && ops[..2][..1] == [ops[0]] && ops[..1][..0] == [];
    assert RunLive(p, []) == map[];
    assert RunLive(p, ops[..1]) == map[0 := {}];
    assert RunLive(p, ops[..2]) == map[0 := {7}];
  }

  /** A run of calls one at a time whose last clock reading is older than one already seen: two buckets of
      ten seconds, id 7 registered in bucket 0, bucket 20000 opened at 10000, then id 7 planned at 9000. */
  lemma StaleClockEvictsCurrent(p: Params)
    requires p.width == 10000 && p.preWrite == 5000 && p.maxBuckets == 2 && p.hash(7) == 0
    ensures !PlanAnswer(p, RunLive(p, STALE_OPS), 7, 0, 9000).current
    ensures 0 !in Step(p, RunLive(p, STALE_OPS), PlanOp(7, 0, 9000))
  {
    StaleOpsLive(p);
    var live: Live := map[0 := {7}, 20000 := {}];
    assert |live| == 2;
    PreWriteEvictsCurrentIff(p, live, 7, 0, 9000);
  }
}
