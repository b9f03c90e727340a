/**
 Pre-writes under interleaving (pkg/timebucketedset/time_bucketed_set.go:77-106, 130-190). Between giving up
 the read lock and taking the write lock a Plan loses sight of the set, so a clock that never goes back is not
 enough to keep the bucket it pre-writes for; a bound on the clocks of all calls is.
 */
module BucketPreWrite {
  import opened BucketInterleaving
  import opened BucketSet
  import opened BucketSpec
  import opened Options
  import opened TimeBuckets

  /** The thread holds the write lock to create the bucket after its own. */
  predicate PreWriting(s: State, t: Tid) {
    s.Of(t).Planning? && s.Of(t).pc == Writing(Next)
  }

  // ---- exactly when a pre-write evicts ----

  /** The bucket after start is not live, the set is full and nothing older than start is in it. */
  ghost predicate NoRoomForNext(p: Params, live: Live, start: Millis)
    requires p.width > 0
  {
    start + p.width !in live && |live| == p.maxBuckets && forall x :: x in live ==> start <= x
  }

  lemma CreateNextEvictsIff(p: Params, live: Live, start: Millis)
    requires p.Valid() && |live| <= p.maxBuckets && start in live
    ensures start !in Create(live, p.maxBuckets, start + p.width) <==> NoRoomForNext(p, live, start)
  {
    if start + p.width !in live {
      EvictsExactlyTheOldest(live, p.maxBuckets, start + p.width, start);
    }
  }

  lemma PreWriteCreates(p: Params, s: State, t: Tid, start: Millis)
    requires p.Valid() && s.store.Represents(s.live) && PreWriting(s, t) && start == s.Of(t).start
    ensures Enabled(p, s, CreateAndUnlock(t))
    ensures Apply(p, s, CreateAndUnlock(t)).live == Create(s.live, p.maxBuckets, start + p.width)
  {
  }

  lemma PreWriteStep(p: Params, s: State, t: Tid, start: Millis)
    requires p.Valid() && StoreInv(p, s) && PreWriting(s, t) && start == s.Of(t).start && start in s.live
    ensures Enabled(p, s, CreateAndUnlock(t))
    ensures Apply(p, s, CreateAndUnlock(t)).live == Create(s.live, p.maxBuckets, start + p.width)
    ensures start !in Apply(p, s, CreateAndUnlock(t)).live <==> NoRoomForNext(p, s.live, start)
  {
    PreWriteCreates(p, s, t, start);
    SameKeysSameSize(s.live, s.store.buckets);
    CreateNextEvictsIff(p, s.live, start);
  }

  /** In every run, the write step of a pre-write evicts the bucket it is for exactly when the next bucket is
      not live, the set is full and no older bucket is live. */
  lemma HandOverEvictsCurrentIff(p: Params, actions: seq<Action>, t: Tid, start: Millis)
    requires p.Valid() && CanRun(p, actions)
    requires PreWriting(Run(p, actions), t) && start == Run(p, actions).Of(t).start && start in Run(p, actions).live
    ensures Enabled(p, Run(p, actions), CreateAndUnlock(t))
    ensures start !in Apply(p, Run(p, actions), CreateAndUnlock(t)).live
            <==> NoRoomForNext(p, Run(p, actions).live, start)
  {
    RunKeepsInv(p, actions);
    PreWriteStep(p, Run(p, actions), t, start);
  }

  // ---- the clocks that rule it out ----

  /** A call for an aligned start with a non-negative clock whose bucket is not past start. */
  ghost predicate CallBy(p: Params, a: Action, start: Millis)
    requires p.width > 0
  {
    a.Begin? ==> Aligned(p.width, a.start) && a.now >= 0 && BucketStart(p.width, a.now) <= start
  }

  ghost predicate CallsBy(p: Params, actions: seq<Action>, start: Millis)
    requires p.width > 0
  {
    forall i :: 0 <= i < |actions| ==> CallBy(p, actions[i], start)
  }

  ghost predicate ThreadBy(p: Params, th: Thread, start: Millis)
    requires p.width > 0
  {
    th.Planning? ==>
      && Aligned(p.width, th.start) && th.now >= 0 && BucketStart(p.width, th.now) <= start
      && (th.pc.WantWrite? || th.pc.Writing? ==> !TooFarAhead(p, Target(p, th, th.pc.stage), th.now))
  }

  ghost predicate LiveBy(p: Params, live: Live, start: Millis) {
    forall b :: b in live ==> Aligned(p.width, b) && b <= start + p.width
  }

  /** No live bucket and no bucket about to be created is more than one past start. */
  ghost predicate Horizon(p: Params, s: State, start: Millis)
    requires p.width > 0
  {
    LiveBy(p, s.live, start) && forall t :: ThreadBy(p, s.Of(t), start)
  }

  lemma TargetAligned(p: Params, th: Thread, stage: Stage)
    requires p.width > 0 && th.Planning? && Aligned(p.width, th.start)
    ensures Aligned(p.width, Target(p, th, stage))
  {
    AlignedNext(p.width, th.start);
  }

  lemma LiveHorizonStep(p: Params, s: State, a: Action, start: Millis)
    requires p.Valid() && Horizon(p, s, start) && Enabled(p, s, a)
    ensures LiveBy(p, Apply(p, s, a).live, start)
  {
    if a.CreateAndUnlock? {
      var th := s.Of(a.t);
      assert ThreadBy(p, th, start);
      TargetAligned(p, th, th.pc.stage);
    }
  }

  lemma ThreadHorizonStep(p: Params, s: State, a: Action, start: Millis, t: Tid)
    requires p.Valid() && ThreadBy(p, s.Of(t), start) && CallBy(p, a, start) && Enabled(p, s, a)
    ensures ThreadBy(p, Apply(p, s, a).Of(t), start)
  {
    if a.Forget? || a.t != t {
      assert Apply(p, s, a).Of(t) == s.Of(t);
    } else {
      OwnHorizonStep(p, s, a, start);
    }
  }

  lemma OwnHorizonStep(p: Params, s: State, a: Action, start: Millis)
    requires p.Valid() && !a.Forget? && ThreadBy(p, s.Of(a.t), start) && CallBy(p, a, start) && Enabled(p, s, a)
    ensures ThreadBy(p, Apply(p, s, a).Of(a.t), start)
  {
    match a {
      case Look(t) => LookHorizonStep(p, s, t, start);
      case Check(t) => CheckHorizonStep(p, s, t, start);
      case _ =>
    }
  }

  lemma LookHorizonStep(p: Params, s: State, t: Tid, start: Millis)
    requires p.Valid() && ThreadBy(p, s.Of(t), start) && Enabled(p, s, Look(t))
    ensures ThreadBy(p, Apply(p, s, Look(t)).Of(t), start)
  {
  }

  lemma CheckHorizonStep(p: Params, s: State, t: Tid, start: Millis)
    requires p.Valid() && ThreadBy(p, s.Of(t), start) && Enabled(p, s, Check(t))
    ensures ThreadBy(p, Apply(p, s, Check(t)).Of(t), start)
  {
  }

  lemma HorizonStep(p: Params, s: State, a: Action, start: Millis)
    requires p.Valid() && Horizon(p, s, start) && CallBy(p, a, start) && Enabled(p, s, a)
    ensures Horizon(p, Apply(p, s, a), start)
  {
    LiveHorizonStep(p, s, a, start);
    forall t ensures ThreadBy(p, Apply(p, s, a).Of(t), start) {
      assert ThreadBy(p, s.Of(t), start);
      ThreadHorizonStep(p, s, a, start, t);
    }
  }

  lemma {:induction false} RunHorizon(p: Params, actions: seq<Action>, start: Millis)
    requires p.Valid() && CanRun(p, actions) && CallsBy(p, actions, start)
    ensures Horizon(p, Run(p, actions), start)
  {
    if actions != [] {
      var n := |actions| - 1;
      RunHorizon(p, actions[..n], start);
      HorizonStep(p, Run(p, actions[..n]), actions[n], start);
    }
  }

  /** A bucket no more than one past start never pushes start out: there are at least two places. */
  lemma CreateSpares(p: Params, live: Live, start: Millis, created: Millis)
    requires p.Valid() && |live| <= p.maxBuckets && LiveBy(p, live, start) && start in live
    requires Aligned(p.width, created) && created <= start + p.width
    ensures var after := Create(live, p.maxBuckets, created);
            start in after && after[start] == live[start]
  {
    if created !in live && start !in Create(live, p.maxBuckets, created) {
      EvictsExactlyTheOldest(live, p.maxBuckets, created, start);
      if created < start + p.width {
        AlignedGap(p.width, start, created);
        assert false;
      }
      OnlyStartIsLive(p, live, start);
      assert false;
    }
  }

  lemma OnlyStartIsLive(p: Params, live: Live, start: Millis)
    requires p.Valid() && LiveBy(p, live, start) && start in live && start + p.width !in live
    requires forall x :: x in live ==> start <= x
    ensures |live| == 1
  {
    forall x | x in live ensures x == start {
      AlignedGap(p.width, start, x);
    }
    assert live.Keys == {start};
    assert |live| == |live.Keys|;
  }

  /** Under a horizon no step of any thread takes the bucket away; only forgetting touches its ids. */
  lemma StepSpares(p: Params, s: State, a: Action, start: Millis)
    requires p.Valid() && StoreInv(p, s) && Horizon(p, s, start) && start in s.live && Enabled(p, s, a)
    ensures start in Apply(p, s, a).live
  {
    if a.CreateAndUnlock? {
      var th := s.Of(a.t);
      assert ThreadBy(p, th, start);
      TargetAligned(p, th, th.pc.stage);
      SameKeysSameSize(s.live, s.store.buckets);
      CreateSpares(p, s.live, start, Target(p, th, th.pc.stage));
    }
  }

  /** In every run in which no call so far has a clock past the bucket of start, that bucket, once live, stays
      live, whatever creates buckets in between. */
  lemma {:induction false} BucketSurvives(p: Params, actions: seq<Action>, i: nat, start: Millis)
    requires p.Valid() && CanRun(p, actions) && CallsBy(p, actions, start) && i <= |actions|
    requires CanRun(p, actions[..i]) && start in Run(p, actions[..i]).live
    ensures start in Run(p, actions).live
  {
    if i == |actions| {
      assert actions[..i] == actions;
    } else {
      var front := actions[..|actions| - 1];
      PrefixRuns(p, actions, |actions| - 1);
      assert front[..i] == actions[..i];
      BucketSurvives(p, front, i, start);
      BucketSurvivesOne(p, front, Run(p, front), actions[|actions| - 1], start);
    }
  }

  lemma BucketSurvivesOne(p: Params, actions: seq<Action>, s: State, a: Action, start: Millis)
    requires p.Valid() && CanRun(p, actions) && Run(p, actions) == s && CallsBy(p, actions, start)
    requires start in s.live && Enabled(p, s, a)
    ensures start in Apply(p, s, a).live
  {
    RunKeepsInv(p, actions);
    RunHorizon(p, actions, start);
    StepSpares(p, s, a, start);
  }

  /** A bucket and its successor are live, the first with the ids it had. */
  ghost predicate Spared(p: Params, before: Live, after: Live, start: Millis)
    requires p.width > 0
  {
    start in before && start in after && after[start] == before[start] && start + p.width in after
  }

  lemma CreateNextSpares(p: Params, live: Live, start: Millis)
    requires p.Valid() && |live| <= p.maxBuckets && LiveBy(p, live, start) && start in live
    ensures Spared(p, live, Create(live, p.maxBuckets, start + p.width), start)
  {
    AlignedNext(p.width, start);
    CreateSpares(p, live, start, start + p.width);
  }

  lemma PlannerIsInItsBucket(p: Params, th: Thread)
    requires p.Valid() && th.Planning? && Eligible(p, th.id, th.start, th.now)
    requires ThreadBy(p, th, BucketStart(p.width, th.now))
    ensures th.start == BucketStart(p.width, th.now)
  {
    EligibleTimesAreASuffix(p.width, p.preWrite, p.hash(th.id), th.start);
    BucketStartUnique(p.width, th.start, th.now);
  }

  lemma HorizonSpares(p: Params, s: State, t: Tid, start: Millis)
    requires p.Valid() && StoreInv(p, s) && LiveBy(p, s.live, start)
    requires PreWriting(s, t) && s.Of(t).start == start && start in s.live
    ensures Enabled(p, s, CreateAndUnlock(t)) && Spared(p, s.live, Apply(p, s, CreateAndUnlock(t)).live, start)
  {
    SameKeysSameSize(s.live, s.store.buckets);
    CreateNextSpares(p, s.live, start);
    PreWriteStep(p, s, t, start);
  }

  lemma PlannerHasItsBucket(p: Params, s: State, t: Tid, start: Millis)
    requires p.Valid() && PreWriting(s, t) && ThreadInv(p, s, t) && Horizon(p, s, start)
    requires start == BucketStart(p.width, s.Of(t).now)
    ensures s.Of(t).start == start && LiveBy(p, s.live, start)
  {
    assert ThreadBy(p, s.Of(t), start);
    PlannerIsInItsBucket(p, s.Of(t));
  }

  /** With aligned starts and non-negative clocks, a pre-write leaves its own bucket live with its ids if no
      call so far has a clock in a later bucket than the pre-writing call's. */
  lemma PreWriteSparesCurrent(p: Params, actions: seq<Action>, t: Tid, start: Millis)
    requires p.Valid() && CanRun(p, actions) && CallsBy(p, actions, start)
    requires PreWriting(Run(p, actions), t) && start == BucketStart(p.width, Run(p, actions).Of(t).now)
    requires Run(p, actions).Of(t).start in Run(p, actions).live
    ensures start == Run(p, actions).Of(t).start && Enabled(p, Run(p, actions), CreateAndUnlock(t))
    ensures Spared(p, Run(p, actions).live, Apply(p, Run(p, actions), CreateAndUnlock(t)).live, start)
  {
    RunKeepsInv(p, actions);
    RunHorizon(p, actions, start);
    PlannerHasItsBucket(p, Run(p, actions), t, start);
    HorizonSpares(p, Run(p, actions), t, start);
  }

  // ---- a clock that never goes back is not enough ----

  /** Two buckets of ten seconds, the last five for pre-writing, from the first of which id 7 is eligible. */
  predicate TenSeconds(p: Params) {
    p.width == 10000 && p.preWrite == 5000 && p.maxBuckets == 2 && p.hash(7) == 0
  }

  /** Calls are for aligned starts, and their clocks are non-negative, never go back and end by now. */
  ghost predicate ForwardTo(p: Params, actions: seq<Action>, now: Millis) {
    && (forall i :: 0 <= i < |actions| && actions[i].Begin? ==>
                      Aligned(p.width, actions[i].start) && 0 <= actions[i].now <= now)
    && (forall i, j :: 0 <= i < j < |actions| && actions[i].Begin? && actions[j].Begin? ==>
                         actions[i].now <= actions[j].now)
  }

  ghost predicate After(p: Params, actions: seq<Action>, s: State, now: Millis)
    requires p.Valid()
  {
    CanRun(p, actions) && Run(p, actions) == s && ForwardTo(p, actions, now)
  }

  lemma Take(p: Params, actions: seq<Action>, s: State, now: Millis, a: Action) returns (longer: seq<Action>, s': State)
    requires p.Valid() && After(p, actions, s, now) && Enabled(p, s, a) && !a.Begin?
    ensures After(p, longer, s', now) && s' == Apply(p, s, a)
  {
    longer, s' := actions + [a], Apply(p, s, a);
    assert longer[..|actions|] == actions;
  }

  lemma Call(p: Params, actions: seq<Action>, s: State, was: Millis, a: Action) returns (longer: seq<Action>, s': State)
    requires p.Valid() && After(p, actions, s, was) && Enabled(p, s, a)
    requires a.Begin? && Aligned(p.width, a.start) && 0 <= a.now && was <= a.now
    ensures After(p, longer, s', a.now) && s' == Apply(p, s, a)
  {
    longer, s' := actions + [a], Apply(p, s, a);
    assert longer[..|actions|] == actions;
  }

  /** Nobody holds a lock. */
  predicate Unlocked(s: State) {
    s.readers == {} && s.writer.None?
  }

  /** A thread begins a Plan for a bucket that is not live and gives up the read lock. */
  lemma Miss(p: Params, actions: seq<Action>, s: State, was: Millis, t: Tid, th: Thread)
    returns (longer: seq<Action>, s': State)
    requires p.Valid() && After(p, actions, s, was) && Unlocked(s) && s.Of(t).Idle?
    requires th.Planning? && th.pc == WantWrite(Current) && Aligned(p.width, th.start) && 0 <= th.now && was <= th.now
    requires th.start !in s.store.buckets && !TooFarAhead(p, th.start, th.now)
    ensures After(p, longer, s', th.now) && s' == s.(threads := s.threads[t := th])
  {
    longer, s' := Call(p, actions, s, was, Begin(t, th.id, th.start, th.now));
    longer, s' := Take(p, longer, s', th.now, Look(t));
    assert s'.threads == s.threads[t := th] && s'.readers == {};
  }

  lemma Lock(p: Params, actions: seq<Action>, s: State, now: Millis, t: Tid, th: Thread)
    returns (longer: seq<Action>, s': State)
    requires p.Valid() && After(p, actions, s, now) && Unlocked(s) && s.Of(t) == th && th.Planning? && th.pc.WantWrite?
    ensures After(p, longer, s', now)
    ensures s' == s.(writer := Some(t), threads := s.threads[t := th.(pc := Writing(th.pc.stage))])
  {
    longer, s' := Take(p, actions, s, now, LockWrite(t));
  }

  lemma Unlock(p: Params, actions: seq<Action>, s: State, now: Millis, t: Tid, th: Thread)
    returns (longer: seq<Action>, s': State)
    requires p.Valid() && After(p, actions, s, now) && s.Of(t) == th && th.Planning? && th.pc.Writing?
    requires s.readers == {} && s.store.Represents(s.live)
    ensures After(p, longer, s', now) && Unlocked(s')
    ensures s'.live == Create(s.live, p.maxBuckets, Target(p, th, th.pc.stage))
    ensures s'.threads == s.threads[t := th.(pc := WantRead(th.pc.stage))]
  {
    longer, s' := Take(p, actions, s, now, CreateAndUnlock(t));
  }

  lemma StoreRepresents(p: Params, actions: seq<Action>, s: State, now: Millis)
    requires p.Valid() && After(p, actions, s, now)
    ensures s.store.Represents(s.live)
  {
    RunKeepsInv(p, actions);
  }

  /** A thread plans a bucket that is not live and creates it. */
  lemma Open(p: Params, actions: seq<Action>, s: State, was: Millis, t: Tid, th: Thread)
    returns (longer: seq<Action>, s': State)
    requires p.Valid() && After(p, actions, s, was) && Unlocked(s) && s.Of(t).Idle?
    requires th.Planning? && th.pc == WantWrite(Current) && Aligned(p.width, th.start) && 0 <= th.now && was <= th.now
    requires th.start !in s.live && !TooFarAhead(p, th.start, th.now)
    ensures After(p, longer, s', th.now) && Unlocked(s') && s'.live == Create(s.live, p.maxBuckets, th.start)
    ensures s'.threads == s.threads[t := th.(pc := WantRead(Current))]
  {
    StoreRepresents(p, actions, s, was);
    longer, s' := Miss(p, actions, s, was, t, th);
    longer, s' := Lock(p, longer, s', th.now, t, th);
    longer, s' := Unlock(p, longer, s', th.now, t, th.(pc := Writing(Current)));
    assert s'.threads == s.threads[t := th.(pc := WantRead(Current))];
  }

  lemma ApplyOne(p: Params, actions: seq<Action>, s: State, now: Millis, t: Tid, id: Id, start: Millis)
    returns (longer: seq<Action>, s': State)
    requires p.Valid() && After(p, actions, s, now) && s.Of(t).Applying?
    requires start in s.live && s.store.Represents(s.live)
    ensures After(p, longer, s', now) && s'.live == s.live[start := s.live[start] + {id}]
    ensures s'.threads == s.threads && s'.readers == s.readers && s'.writer == s.writer
  {
    longer, s' := Take(p, actions, s, now, ApplyRowStep(t, Row(id, start, {})));
    assert s.live[start] + {id} - {} == s.live[start] + {id};
  }

  /** A thread registers an id in a live bucket. */
  lemma Register(p: Params, actions: seq<Action>, s: State, now: Millis, t: Tid, id: Id, start: Millis)
    returns (longer: seq<Action>, s': State)
    requires p.Valid() && After(p, actions, s, now) && Unlocked(s) && s.Of(t).Idle? && start in s.live
    ensures After(p, longer, s', now) && Unlocked(s') && s'.live == s.live[start := s.live[start] + {id}]
    ensures s'.threads == s.threads[t := Idle]
  {
    StoreRepresents(p, actions, s, now);
    longer, s' := Take(p, actions, s, now, BeginApply(t));
    longer, s' := ApplyOne(p, longer, s', now, t, id, start);
    longer, s' := Take(p, longer, s', now, EndApply(t));
    assert s'.threads == s.threads[t := Idle] && s'.readers == {};
  }

  /** A thread finds its eligible id in the live bucket and moves on to the next stage. */
  lemma Hit(p: Params, actions: seq<Action>, s: State, was: Millis, t: Tid, th: Thread)
    returns (longer: seq<Action>, s': State)
    requires p.Valid() && After(p, actions, s, was) && Unlocked(s) && s.Of(t).Idle?
    requires th.Planning? && th.pc == Lookup(Next) && Aligned(p.width, th.start) && 0 <= th.now && was <= th.now
    requires th.start in s.live && th.id in s.live[th.start] && Eligible(p, th.id, th.start, th.now)
    requires !TooFarAhead(p, th.start, th.now)
    ensures After(p, longer, s', th.now) && s' == s.(threads := s.threads[t := th], readers := {t})
  {
    StoreRepresents(p, actions, s, was);
    longer, s' := Call(p, actions, s, was, Begin(t, th.id, th.start, th.now));
    assert s'.Of(t) == th.(pc := Lookup(Current));
    longer, s' := Take(p, longer, s', th.now, Look(t));
    assert s'.Of(t) == th.(pc := Held(Current, s.store.buckets[th.start]));
    longer, s' := Take(p, longer, s', th.now, Check(t));
    assert s'.threads == s.threads[t := th] && s'.readers == {t};
  }

  /** The next bucket is not live: the read lock is given up. */
  lemma MissNext(p: Params, actions: seq<Action>, s: State, now: Millis, t: Tid, th: Thread)
    returns (longer: seq<Action>, s': State)
    requires p.Valid() && After(p, actions, s, now) && s.readers == {t} && s.writer.None? && s.Of(t) == th
    requires th.Planning? && th.pc == Lookup(Next) && th.start + p.width !in s.store.buckets
    requires !TooFarAhead(p, th.start + p.width, th.now)
    ensures After(p, longer, s', now) && Unlocked(s')
    ensures s' == s.(threads := s.threads[t := th.(pc := WantWrite(Next))], readers := {})
  {
    longer, s' := Take(p, actions, s, now, Look(t));
    assert s'.readers == {};
  }

  const OPENER := Planning(0, 0, 0, WantWrite(Current))
  const PLANNER := Planning(7, 0, 9000, Lookup(Next))
  const LATER := Planning(8, 20000, 10000, WantWrite(Current))

  lemma TenSecondClocks(p: Params)
    requires TenSeconds(p)
    ensures Aligned(p.width, 0) && Aligned(p.width, 20000)
    ensures !TooFarAhead(p, 0, 0) && !TooFarAhead(p, 0, 9000) && !TooFarAhead(p, 10000, 9000)
    ensures !TooFarAhead(p, 20000, 10000) && Eligible(p, 7, 0, 9000)
  {
    assert 0 == 0 * p.width && 20000 == 2 * p.width;
  }

  /** Id 7 is registered in bucket 0 at time 0, and thread 1 plans it at 9000 up to the lock hand-over. */
  lemma PlannerWaits(p: Params) returns (actions: seq<Action>, s: State)
    requires TenSeconds(p) && p.Valid()
    ensures After(p, actions, s, 9000) && Unlocked(s) && s.live == map[0 := {7}]
    ensures s.Of(1) == PLANNER.(pc := WantWrite(Next)) && s.Of(2).Idle?
  {
    TenSecondClocks(p);
    actions, s := Open(p, [], INIT, 0, 0, OPENER);
    assert s.live == map[0 := {}];
    actions, s := Register(p, actions, s, 0, 3, 7, 0);
    assert s.live == map[0 := {7}];
    actions, s := Hit(p, actions, s, 0, 1, PLANNER);
    StoreRepresents(p, actions, s, 9000);
    actions, s := MissNext(p, actions, s, 9000, 1, PLANNER);
  }

  lemma FullWithoutNext(p: Params, live: Live)
    requires TenSeconds(p) && live == map[0 := {7}, 20000 := {}]
    ensures NoRoomForNext(p, live, 0)
  {
    assert |live| == 2 && live.Keys == {0, 20000};
  }

  /** The clocks of the calls are 0, 9000 and 10000 in this order. While thread 1 waits for the write lock,
      thread 2 opens bucket 20000; thread 1 then takes the lock and evicts the bucket it pre-writes for. */
  lemma ForwardClockEvictsCurrent(p: Params)
    requires TenSeconds(p) && p.Valid()
    ensures exists actions, s ::
              && After(p, actions, s, 10000) && PreWriting(s, 1) && s.Of(1).start == 0 && 0 in s.live && 7 in s.live[0]
              && Enabled(p, s, CreateAndUnlock(1)) && 0 !in Apply(p, s, CreateAndUnlock(1)).live
  {
    TenSecondClocks(p);
    var actions, s := PlannerWaits(p);
    actions, s := Open(p, actions, s, 9000, 2, LATER);
    assert s.live == map[0 := {7}, 20000 := {}] && s.Of(1) == PLANNER.(pc := WantWrite(Next));
    actions, s := Lock(p, actions, s, 10000, 1, s.Of(1));
    FullWithoutNext(p, s.live);
    HandOverEvictsCurrentIff(p, actions, 1, 0);
    assert After(p, actions, s, 10000) && PreWriting(s, 1);
  }
}
