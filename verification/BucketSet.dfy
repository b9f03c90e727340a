/**
 The bucket set as an object (pkg/timebucketedset/time_bucketed_set.go). A cache is the set of ids it
 holds. Each method runs as one call on its own; BucketInterleaving splits Plan at its lock hand-over
 and keeps caches apart by identity.
 */
module BucketSet {
  import opened Options
  import opened TimeBuckets
  import opened BucketSpec

  class BucketedSet {
    const params: Params
    var buckets: Live
    var spareBuckets: seq<set<Id>>
    ghost var allocations: nat  // caches allocated so far

    /** Between calls no spare is left over, and as many caches have been allocated as buckets are live. */
    ghost predicate Valid()
      reads this
    {
      params.Valid() && spareBuckets == [] && allocations == |buckets| <= params.maxBuckets
    }

    constructor (params: Params)
      requires params.Valid()
      ensures Valid() && this.params == params && buckets == map[]
    {
      this.params := params;
      buckets := map[];
      spareBuckets := [];
      allocations := 0;
    }

    method CreateBucket(start: Millis)
      requires Valid()
      modifies this
      ensures Valid() && allocations >= old(allocations)
      ensures buckets == Create(old(buckets), params.maxBuckets, start)
    {
      if start in buckets {
        return;
      }
      if |buckets| >= params.maxBuckets {
        var oldest := FindOldest(start);
        assert oldest == Oldest(buckets.Keys, start);
        if oldest == start {
          return;
        }
        var bucket := buckets[oldest];
        RemoveKey(buckets, oldest);
        buckets := buckets - {oldest};
        bucket := {};
        spareBuckets := spareBuckets + [bucket];
      }
      var bucket: set<Id>;
      var numSpare := |spareBuckets|;
      if numSpare > 0 {
        bucket := spareBuckets[numSpare - 1];
        spareBuckets := spareBuckets[..numSpare - 1];
      } else {
        bucket := {};
        allocations := allocations + 1;
      }
      AddKey(buckets, start, bucket);
      buckets := buckets[start := bucket];
    }

    /** The scan for the smallest start among the live ones and the requested one. */
    method FindOldest(start: Millis) returns (oldest: Millis)
      ensures IsOldest(oldest, buckets.Keys, start)
    {
      oldest := start;
      var rest := buckets.Keys;
      while rest != {}
        invariant rest <= buckets.Keys
        invariant oldest in buckets || oldest == start
        invariant oldest <= start && forall b :: b in buckets.Keys && b !in rest ==> oldest <= b
        decreases |rest|
      {
        var b :| b in rest;
        if b < oldest {
          oldest := b;
        }
        rest := rest - {b};
      }
    }

    method GetOrCreateBucket(start: Millis, now: Millis) returns (bucket: Option<set<Id>>)
      requires Valid()
      modifies this
      ensures Valid() && allocations >= old(allocations)
      ensures buckets == GetOrCreate(params, old(buckets), start, now)
      ensures bucket == if !TooFarAhead(params, start, now) && start in buckets then Some(buckets[start]) else None
    {
      if start > BucketStart(params.width, now) + params.width {
        return None;
      }
      if start !in buckets {
        CreateBucket(start);
      }
      bucket := if start in buckets then Some(buckets[start]) else None;
    }

    method Plan(id: Id, start: Millis, now: Millis) returns (current: bool, next: bool)
      requires Valid()
      modifies this
      ensures Valid() && allocations >= old(allocations)
      ensures buckets == PlanLive(params, old(buckets), id, start, now)
      ensures Answer(current, next) == PlanAnswer(params, old(buckets), id, start, now)
      ensures current <==> !(&& start <= BucketStart(params.width, now) + params.width
                             && start in old(buckets) && id in old(buckets)[start])
      ensures next <==> && !current && Eligible(params, id, start, now)
                        && start <= BucketStart(params.width, now)
                        && !(start + params.width in old(buckets) && id in old(buckets)[start + params.width])
    {
      PlanAnswersExactly(params, buckets, id, start, now);
      var currentBucket := GetOrCreateBucket(start, now);
      if currentBucket.None? || id !in currentBucket.value {
        return true, false;
      }
      if !Eligible(params, id, start, now) {
        return false, false;
      }
      var nextBucket := GetOrCreateBucket(start + params.width, now);
      next := nextBucket.Some? && id !in nextBucket.value;
      current := false;
    }

    /** Every row is registered in its bucket; a row for a bucket that is not live is ignored.
        Each row carries what the cache forgets of its own accord while storing it. */
    method Apply(rows: seq<Row>)
      requires Valid()
      modifies `buckets
      ensures Valid() && buckets == ApplyRows(old(buckets), rows)
    {
      for i := 0 to |rows|
        invariant Valid() && buckets == ApplyRows(old(buckets), rows[..i])
      {
        var row := rows[i];
        if row.start in buckets {
          ApplyKeepsStarts(buckets, row.id, row.start, row.forgotten);
          buckets := buckets[row.start := buckets[row.start] + {row.id} - row.forgotten];
        }
        assert rows[..i + 1][..i] == rows[..i];
      }
      assert rows[..|rows|] == rows;
    }
  }

  datatype Row = Row(id: Id, start: Millis, forgotten: set<Id>)

  ghost function ApplyRows(live: Live, rows: seq<Row>): Live {
    if rows == [] then live
    else
      var n := |rows| - 1;
      ApplyRow(ApplyRows(live, rows[..n]), rows[n].id, rows[n].start, rows[n].forgotten)
  }

  /** Row i registers the id, and neither it nor a later row of the bucket makes the cache forget it. */
  ghost predicate Registers(rows: seq<Row>, i: int, id: Id, start: Millis) {
    && 0 <= i < |rows| && rows[i].id == id && rows[i].start == start
    && forall j :: i <= j < |rows| && rows[j].start == start ==> id !in rows[j].forgotten
  }

  ghost predicate Forgets(rows: seq<Row>, id: Id, start: Millis) {
    exists j :: 0 <= j < |rows| && rows[j].start == start && id in rows[j].forgotten
  }

  lemma RegistersNext(rows: seq<Row>, id: Id, start: Millis)
    requires rows != []
    ensures var n := |rows| - 1;
            && (Registers(rows, n, id, start)
                <==> rows[n].id == id && rows[n].start == start && id !in rows[n].forgotten)
            && (forall i :: 0 <= i < n ==>
                  (Registers(rows, i, id, start)
                   <==> Registers(rows[..n], i, id, start) && !(rows[n].start == start && id in rows[n].forgotten)))
            && (Forgets(rows, id, start)
                <==> Forgets(rows[..n], id, start) || (rows[n].start == start && id in rows[n].forgotten))
  {
    var n := |rows| - 1;
    assert forall j :: 0 <= j < n ==> rows[..n][j] == rows[j];
    if Forgets(rows[..n], id, start) {
      var j :| 0 <= j < n && rows[..n][j].start == start && id in rows[..n][j].forgotten;
      assert rows[j].start == start && id in rows[j].forgotten;
    }
  }

  /** After Apply a live bucket holds an id exactly if it did before or a row registered it, and the cache has not
      forgotten it since. */
  lemma {:induction false} ApplyRegistersExactly(live: Live, rows: seq<Row>, id: Id, start: Millis)
    requires start in live
    ensures start in ApplyRows(live, rows)
    ensures id in ApplyRows(live, rows)[start] <==>
            (id in live[start] && !Forgets(rows, id, start)) || exists i :: Registers(rows, i, id, start)
  {
    if rows != [] {
      var n := |rows| - 1;
      ApplyRegistersExactly(live, rows[..n], id, start);
      RegistersNext(rows, id, start);
      if i :| Registers(rows[..n], i, id, start) && !(rows[n].start == start && id in rows[n].forgotten) {
        assert Registers(rows, i, id, start);
      }
    }
  }

  /** After Apply an id is known for a live bucket only if it was known before or a row registered it there. */
  lemma {:induction false} ApplyOnlyRegistersRows(live: Live, rows: seq<Row>, id: Id, start: Millis)
    ensures ApplyRows(live, rows).Keys == live.Keys
    ensures start in live && id in ApplyRows(live, rows)[start] ==>
              id in live[start] || exists i :: 0 <= i < |rows| && rows[i].id == id && rows[i].start == start
  {
    if rows != [] {
      var n := |rows| - 1;
      ApplyOnlyRegistersRows(live, rows[..n], id, start);
      ApplyKeepsStarts(ApplyRows(live, rows[..n]), rows[n].id, rows[n].start, rows[n].forgotten);
    }
  }
}
