/**
 Interleavings of Plan, Apply and bucket creation (pkg/timebucketedset/time_bucketed_set.go:77-190).
 Any number of threads share the set; Plan holds the read lock except while it creates a bucket, and
 getOrCreateBucket lets go of the read lock before it takes the write lock and takes it again afterwards.
 Caches are named by handles into a heap of cache contents, so that a cache shared by two buckets or
 reused without a reset would show.
 */
module BucketInterleaving {
  import opened Options
  import opened TimeBuckets
  import opened BucketSpec
  import opened BucketSet

  type Handle = nat

  /** A cache is a set that may drop entries when written to and never invents one. */
  datatype Store = Store(buckets: map<Millis, Handle>, spareBuckets: seq<Handle>, caches: seq<set<Id>>) {

    /** Each live bucket has a cache of its own, holding exactly the ids that live gives it. */
    ghost predicate Represents(live: Live) {
      && live.Keys == buckets.Keys
      && (forall s :: s in buckets ==> buckets[s] < |caches| && caches[buckets[s]] == live[s])
      && (forall a, b :: a in buckets && b in buckets && a != b ==> buckets[a] != buckets[b])
    }

    /** There is at most one spare; it is empty and serves no bucket. */
    ghost predicate SpareIsClean() {
      && |spareBuckets| <= 1
      && (|spareBuckets| == 1 ==>
            var c := spareBuckets[0];
            c < |caches| && caches[c] == {} && forall s :: s in buckets ==> buckets[s] != c)
    }

    /** Between calls no spare is left over, and as many caches have been allocated as buckets are live. */
    ghost predicate Valid(live: Live, max: nat) {
      Represents(live) && spareBuckets == [] && |caches| == |buckets| <= max
    }

    /** Drop a live bucket, reset its cache and keep the cache as a spare. */
    function Evict(oldest: Millis): Store
      requires oldest in buckets && buckets[oldest] < |caches|
    {
      Store(buckets - {oldest}, spareBuckets + [buckets[oldest]], caches[buckets[oldest] := {}])
    }

    /** Serve start from the last spare cache, or from a new one when there is none. */
    function Install(start: Millis): Store {
      var n := |spareBuckets|;
      if n > 0
      then Store(buckets[start := spareBuckets[n - 1]], spareBuckets[..n - 1], caches)
      else Store(buckets[start := |caches|], [], caches + [{}])
    }

    ghost function Create(live: Live, max: nat, start: Millis): Store
      requires Represents(live)
    {
      if start in buckets then this
      else if |buckets| < max then Install(start)
      else
        var oldest := Oldest(buckets.Keys, start);
        if oldest == start then this else Evict(oldest).Install(start)
    }
  }

  lemma SameKeysSameSize<K, V, W>(m: map<K, V>, n: map<K, W>)
    requires m.Keys == n.Keys
    ensures |m| == |n|
  {
    assert |m| == |m.Keys| && |n| == |n.Keys|;
  }

  lemma EvictClears(s: Store, live: Live, max: nat, oldest: Millis)
    requires s.Valid(live, max) && oldest in s.buckets
    ensures var t := s.Evict(oldest);
            && t.Represents(live - {oldest}) && t.SpareIsClean() && |t.spareBuckets| == 1
            && |t.buckets| == |s.buckets| - 1 && |t.caches| == |s.caches|
  {
    RemoveKey(s.buckets, oldest);
  }

  lemma InstallIsEmpty(s: Store, live: Live, max: nat, start: Millis)
    requires s.Represents(live) && s.SpareIsClean() && start !in s.buckets && |s.buckets| < max
    requires |s.caches| == |s.buckets| + |s.spareBuckets|
    ensures s.Install(start).Valid(live[start := {}], max)
  {
    if |s.spareBuckets| == 1 {
      assert s.spareBuckets[..0] == [];
      ServeRepresents(s, live, start, s.spareBuckets[0]);
      AddKey(s.buckets, start, s.spareBuckets[0]);
    } else {
      GrownRepresents(s, live);
      ServeRepresents(s.(caches := s.caches + [{}]), live, start, |s.caches|);
      AddKey(s.buckets, start, |s.caches|);
    }
  }

  lemma GrownRepresents(s: Store, live: Live)
    requires s.Represents(live)
    ensures s.(caches := s.caches + [{}]).Represents(live)
  {
  }

  /** An empty cache that serves no bucket can be handed to a new one. */
  lemma ServeRepresents(s: Store, live: Live, start: Millis, h: Handle)
    requires s.Represents(live) && start !in s.buckets
    requires h < |s.caches| && s.caches[h] == {} && forall b :: b in s.buckets ==> s.buckets[b] != h
    ensures Store(s.buckets[start := h], [], s.caches).Represents(live[start := {}])
  {
  }

  /** Recycling is invisible: the heap of caches behaves as the plain map does. In particular no id
      of an earlier bucket shows up in the bucket that reuses its cache. */
  lemma CreateRefines(s: Store, live: Live, max: nat, start: Millis)
    requires s.Valid(live, max) && max >= 1
    ensures s.Create(live, max, start).Valid(Create(live, max, start), max)
  {
    SameKeysSameSize(live, s.buckets);
    if start !in s.buckets {
      if |s.buckets| < max {
        InstallIsEmpty(s, live, max, start);
      } else {
        var oldest := Oldest(s.buckets.Keys, start);
        if oldest != start {
          EvictClears(s, live, max, oldest);
          InstallIsEmpty(s.Evict(oldest), live - {oldest}, max, start);
        }
      }
    }
  }

  type Tid = nat

  datatype Stage = Current | Next

  datatype Pc =
    | Lookup(stage: Stage)       // holds the read lock, about to look the bucket up
    | WantWrite(stage: Stage)    // between RUnlock and Lock
    | Writing(stage: Stage)      // holds the write lock
    | WantRead(stage: Stage)     // between Unlock and RLock
    | Relookup(stage: Stage)     // holds the read lock again
    | Held(stage: Stage, cache: Handle)
    | Answered(answer: Answer)

  datatype Thread =
    | Idle
    | Planning(id: Id, start: Millis, now: Millis, pc: Pc)
    | Applying

  /** live, registered and seen are history: the ids each live bucket holds, the pairs applied while
      their bucket was live, and every start ever passed to createBucket. */
  datatype State = State(
    store: Store,
    readers: set<Tid>,
    writer: Option<Tid>,
    threads: map<Tid, Thread>,
    live: Live,
    registered: set<(Id, Millis)>,
    seen: set<Millis>)
  {
    function Of(t: Tid): Thread {
      if t in threads then threads[t] else Idle
    }

    function With(t: Tid, thread: Thread): State {
      this.(threads := threads[t := thread])
    }
  }

  datatype Action =
    | Begin(t: Tid, id: Id, start: Millis, now: Millis)
    | Look(t: Tid)
    | LockWrite(t: Tid)
    | CreateAndUnlock(t: Tid)
    | LockRead(t: Tid)
    | LookAgain(t: Tid)
    | Check(t: Tid)
    | Finish(t: Tid)
    | BeginApply(t: Tid)
    | ApplyRowStep(t: Tid, row: Row)
    | EndApply(t: Tid)
    | Forget(start: Millis, ids: set<Id>)

  ghost const INIT := State(Store(map[], [], []), {}, None, map[], map[], {}, {})

  /** The bucket a planning thread is after. */
  function Target(p: Params, th: Thread, stage: Stage): Millis
    requires p.width > 0 && th.Planning?
  {
    if stage.Current? then th.start else th.start + p.width
  }

  ghost predicate Enabled(p: Params, s: State, a: Action) {
    match a
    case Begin(t, _, _, _) => s.Of(t).Idle? && s.writer.None?
    case Look(t) => s.Of(t).Planning? && s.Of(t).pc.Lookup?
    case LockWrite(t) => s.Of(t).Planning? && s.Of(t).pc.WantWrite? && s.writer.None? && s.readers == {}
    case CreateAndUnlock(t) => s.Of(t).Planning? && s.Of(t).pc.Writing? && s.store.Represents(s.live)
    case LockRead(t) => s.Of(t).Planning? && s.Of(t).pc.WantRead? && s.writer.None?
    case LookAgain(t) => s.Of(t).Planning? && s.Of(t).pc.Relookup?
    case Check(t) => s.Of(t).Planning? && s.Of(t).pc.Held? && s.Of(t).pc.cache < |s.store.caches|
    case Finish(t) => s.Of(t).Planning? && s.Of(t).pc.Answered?
    case BeginApply(t) => s.Of(t).Idle? && s.writer.None?
    case ApplyRowStep(t, row) =>
      s.Of(t).Applying? && (row.start in s.store.buckets ==> s.store.buckets[row.start] < |s.store.caches|)
    case EndApply(t) => s.Of(t).Applying?
    case Forget(start, _) => start in s.store.buckets && s.store.buckets[start] < |s.store.caches|
  }

  /** Plan answers and its deferred RUnlock runs. */
  function Answering(s: State, t: Tid, th: Thread, answer: Answer): State
    requires th.Planning?
  {
    s.With(t, th.(pc := Answered(answer))).(readers := s.readers - {t})
  }

  /** No bucket: the current stage must register, the next stage has nothing to pre-write. */
  function NoBucket(stage: Stage): Answer {
    Answer(stage.Current?, false)
  }

  ghost function Apply(p: Params, s: State, a: Action): State
    requires p.Valid() && Enabled(p, s, a)
  {
    match a
    case Begin(t, id, start, now) =>
      s.With(t, Planning(id, start, now, Lookup(Current))).(readers := s.readers + {t})
    case Look(t) =>
      var th := s.Of(t);
      var stage := th.pc.stage;
      var start := Target(p, th, stage);
      if TooFarAhead(p, start, th.now) then Answering(s, t, th, NoBucket(stage))
      else if start in s.store.buckets then s.With(t, th.(pc := Held(stage, s.store.buckets[start])))
      else s.With(t, th.(pc := WantWrite(stage))).(readers := s.readers - {t})
    case LockWrite(t) =>
      s.With(t, s.Of(t).(pc := Writing(s.Of(t).pc.stage))).(writer := Some(t))
    case CreateAndUnlock(t) =>
      var th := s.Of(t);
      var start := Target(p, th, th.pc.stage);
      s.With(t, th.(pc := WantRead(th.pc.stage))).(
        writer := None,
        store := s.store.Create(s.live, p.maxBuckets, start),
        live := Create(s.live, p.maxBuckets, start),
        seen := s.seen + {start})
    case LockRead(t) =>
      s.With(t, s.Of(t).(pc := Relookup(s.Of(t).pc.stage))).(readers := s.readers + {t})
    case LookAgain(t) =>
      var th := s.Of(t);
      var stage := th.pc.stage;
      var start := Target(p, th, stage);
      if start in s.store.buckets then s.With(t, th.(pc := Held(stage, s.store.buckets[start])))
      else Answering(s, t, th, NoBucket(stage))
    case Check(t) =>
      var th := s.Of(t);
      var has := th.id in s.store.caches[th.pc.cache];
      if th.pc.stage.Next? then Answering(s, t, th, Answer(false, !has))
      else if !has then Answering(s, t, th, Answer(true, false))
      else if !Eligible(p, th.id, th.start, th.now) then Answering(s, t, th, Answer(false, false))
      else s.With(t, th.(pc := Lookup(Next)))
    case Finish(t) => s.With(t, Idle)
    case BeginApply(t) => s.With(t, Applying).(readers := s.readers + {t})
    case ApplyRowStep(t, row) =>
      if row.start in s.store.buckets then
        s.(store := Write(s.store, row),
           live := ApplyRow(s.live, row.id, row.start, row.forgotten),
           registered := s.registered + {(row.id, row.start)})
      else s
    case EndApply(t) => s.With(t, Idle).(readers := s.readers - {t})
    case Forget(start, ids) =>
      var h := s.store.buckets[start];
      s.(store := s.store.(caches := s.store.caches[h := s.store.caches[h] - ids]),
         live := if start in s.live then s.live[start := s.live[start] - ids] else s.live)
  }

  function Write(s: Store, row: Row): Store
    requires row.start in s.buckets && s.buckets[row.start] < |s.caches|
  {
    var h := s.buckets[row.start];
    s.(caches := s.caches[h := s.caches[h] + {row.id} - row.forgotten])
  }

  // ---- the invariant ----

  ghost predicate StoreInv(p: Params, s: State) {
    && s.store.Valid(s.live, p.maxBuckets)
    && TopK(s.live.Keys, s.seen, p.maxBuckets)
  }

  ghost predicate NothingInvented(s: State) {
    forall b, id :: b in s.live && id in s.live[b] ==> (id, b) in s.registered
  }

  ghost predicate LockInv(s: State) {
    s.writer.Some? ==> s.readers == {} && s.Of(s.writer.value).Planning? && s.Of(s.writer.value).pc.Writing?
  }

  predicate Reading(th: Thread) {
    th.Applying? || (th.Planning? && (th.pc.Lookup? || th.pc.Relookup? || th.pc.Held?))
  }

  ghost predicate ThreadInv(p: Params, s: State, t: Tid)
    requires p.Valid()
  {
    var th := s.Of(t);
    && (Reading(th) <==> t in s.readers)
    && (th.Planning? ==>
          && (th.pc.Writing? ==> s.writer == Some(t))
          && (th.pc.Held? ==> Target(p, th, th.pc.stage) in s.store.buckets
                              && s.store.buckets[Target(p, th, th.pc.stage)] == th.pc.cache)
          && (th.pc.Answered? ==> !(th.pc.answer.current && th.pc.answer.next))
          && (PastCurrent(th.pc) ==> (th.id, th.start) in s.registered)
          && (ForNext(th.pc) ==> Eligible(p, th.id, th.start, th.now)))
  }

  /** The thread has found its id in the current bucket. */
  predicate PastCurrent(pc: Pc) {
    if pc.Answered? then !pc.answer.current else pc.stage.Next?
  }

  predicate ForNext(pc: Pc) {
    if pc.Answered? then pc.answer.next else pc.stage.Next?
  }

  ghost predicate Inv(p: Params, s: State)
    requires p.Valid()
  {
    StoreInv(p, s) && NothingInvented(s) && LockInv(s) && forall t :: ThreadInv(p, s, t)
  }

  lemma WriteRefines(s: Store, live: Live, max: nat, row: Row)
    requires s.Valid(live, max) && row.start in s.buckets
    ensures Write(s, row).Valid(ApplyRow(live, row.id, row.start, row.forgotten), max)
  {
  }

  lemma ForgetRefines(s: Store, live: Live, max: nat, start: Millis, ids: set<Id>)
    requires s.Valid(live, max) && start in s.buckets
    ensures var h := s.buckets[start];
            s.(caches := s.caches[h := s.caches[h] - ids]).Valid(live[start := live[start] - ids], max)
  {
  }

  lemma StoreStep(p: Params, s: State, a: Action)
    requires p.Valid() && StoreInv(p, s) && Enabled(p, s, a)
    ensures StoreInv(p, Apply(p, s, a))
  {
    match a {
      case CreateAndUnlock(t) => CreateStoreStep(p, s, t);
      case ApplyRowStep(t, row) => ApplyStoreStep(p, s, t, row);
      case Forget(start, ids) => ForgetStoreStep(p, s, start, ids);
      case _ => QuietStep(p, s, a);
    }
  }

  /** Steps that leave the buckets, their ids and the history alone. */
  lemma QuietStep(p: Params, s: State, a: Action)
    requires p.Valid() && Enabled(p, s, a) && !a.CreateAndUnlock? && !a.ApplyRowStep? && !a.Forget?
    ensures Apply(p, s, a).store == s.store && Apply(p, s, a).live == s.live && Apply(p, s, a).seen == s.seen
    ensures Apply(p, s, a).registered == s.registered
  {
  }

  lemma CreateStoreStep(p: Params, s: State, t: Tid)
    requires p.Valid() && StoreInv(p, s) && Enabled(p, s, CreateAndUnlock(t))
    ensures StoreInv(p, Apply(p, s, CreateAndUnlock(t)))
  {
    var start := Target(p, s.Of(t), s.Of(t).pc.stage);
    CreateRefines(s.store, s.live, p.maxBuckets, start);
    CreateKeepsTopK(s.live, p.maxBuckets, start, s.seen);
  }

  lemma ApplyStoreStep(p: Params, s: State, t: Tid, row: Row)
    requires p.Valid() && StoreInv(p, s) && Enabled(p, s, ApplyRowStep(t, row))
    ensures StoreInv(p, Apply(p, s, ApplyRowStep(t, row)))
  {
    if row.start in s.store.buckets {
      WriteRefines(s.store, s.live, p.maxBuckets, row);
      ApplyKeepsStarts(s.live, row.id, row.start, row.forgotten);
    }
  }

  lemma ForgetStoreStep(p: Params, s: State, start: Millis, ids: set<Id>)
    requires p.Valid() && StoreInv(p, s) && Enabled(p, s, Forget(start, ids))
    ensures StoreInv(p, Apply(p, s, Forget(start, ids)))
  {
    ForgetRefines(s.store, s.live, p.maxBuckets, start, ids);
    assert s.live[start := s.live[start] - ids].Keys == s.live.Keys;
  }

  lemma CreateInventsNothing(live: Live, max: nat, start: Millis)
    ensures forall b, id :: b in Create(live, max, start) && id in Create(live, max, start)[b]
                            ==> b in live && id in live[b]
  {
  }

  lemma NothingInventedStep(p: Params, s: State, a: Action)
    requires p.Valid() && StoreInv(p, s) && NothingInvented(s) && Enabled(p, s, a)
    ensures NothingInvented(Apply(p, s, a))
  {
    match a {
      case CreateAndUnlock(t) => CreateKeepsHistory(p, s, t);
      case ApplyRowStep(t, row) => RowIsRegistered(p, s, t, row);
      case Forget(start, ids) => ForgetInventsNothing(p, s, start, ids);
      case _ => QuietStep(p, s, a);
    }
  }

  lemma CreateKeepsHistory(p: Params, s: State, t: Tid)
    requires p.Valid() && NothingInvented(s) && Enabled(p, s, CreateAndUnlock(t))
    ensures NothingInvented(Apply(p, s, CreateAndUnlock(t)))
  {
    CreateInventsNothing(s.live, p.maxBuckets, Target(p, s.Of(t), s.Of(t).pc.stage));
  }

  lemma ForgetInventsNothing(p: Params, s: State, start: Millis, ids: set<Id>)
    requires p.Valid() && NothingInvented(s) && Enabled(p, s, Forget(start, ids))
    ensures NothingInvented(Apply(p, s, Forget(start, ids)))
  {
  }

  lemma RowIsRegistered(p: Params, s: State, t: Tid, row: Row)
    requires p.Valid() && StoreInv(p, s) && NothingInvented(s) && Enabled(p, s, ApplyRowStep(t, row))
    ensures NothingInvented(Apply(p, s, ApplyRowStep(t, row)))
  {
  }

  lemma LockStep(p: Params, s: State, a: Action)
    requires p.Valid() && LockInv(s) && Enabled(p, s, a) && (a.Forget? || ThreadInv(p, s, a.t))
    ensures LockInv(Apply(p, s, a))
  {
    if a.LockWrite? || a.CreateAndUnlock? {
      WriterStep(p, s, a);
    } else {
      NotTheWriterStep(p, s, a);
    }
  }

  lemma WriterStep(p: Params, s: State, a: Action)
    requires p.Valid() && LockInv(s) && Enabled(p, s, a) && (a.LockWrite? || a.CreateAndUnlock?)
    ensures LockInv(Apply(p, s, a))
  {
  }

  lemma NotTheWriterStep(p: Params, s: State, a: Action)
    requires p.Valid() && LockInv(s) && Enabled(p, s, a) && (a.Forget? || ThreadInv(p, s, a.t))
    requires !a.LockWrite? && !a.CreateAndUnlock?
    ensures LockInv(Apply(p, s, a))
  {
    assert Apply(p, s, a).writer == s.writer;
  }

  /** What another thread, or a cache forgetting, can do to a thread: never move the buckets while it reads. */
  lemma OtherThreadStep(p: Params, s: State, a: Action, u: Tid)
    requires p.Valid() && LockInv(s) && ThreadInv(p, s, u) && Enabled(p, s, a)
    requires a.Forget? || (a.t != u && ThreadInv(p, s, a.t))
    ensures ThreadInv(p, Apply(p, s, a), u)
  {
    var s' := Apply(p, s, a);
    assert s'.Of(u) == s.Of(u) && (u in s'.readers <==> u in s.readers) && s.registered <= s'.registered;
    if !a.CreateAndUnlock? {
      assert s'.store.buckets == s.store.buckets;
    }
  }

  lemma OwnStep(p: Params, s: State, a: Action)
    requires p.Valid() && StoreInv(p, s) && NothingInvented(s) && Enabled(p, s, a)
    requires !a.Forget? && ThreadInv(p, s, a.t)
    ensures ThreadInv(p, Apply(p, s, a), a.t)
  {
    match a {
      case Check(t) => CheckStep(p, s, t);
      case Look(t) => LookStep(p, s, t);
      case LookAgain(t) => LookAgainStep(p, s, t);
      case CreateAndUnlock(t) => CreateOwnStep(p, s, t);
      case ApplyRowStep(t, row) =>
        assert Apply(p, s, a).Of(t) == s.Of(t) && Apply(p, s, a).readers == s.readers;
      case _ => LockOwnStep(p, s, a);
    }
  }

  /** Steps that only take or release a lock or a thread. */
  lemma LockOwnStep(p: Params, s: State, a: Action)
    requires p.Valid() && Enabled(p, s, a)
    requires a.Begin? || a.LockWrite? || a.LockRead? || a.Finish? || a.BeginApply? || a.EndApply?
    requires ThreadInv(p, s, a.t)
    ensures ThreadInv(p, Apply(p, s, a), a.t)
  {
  }

  lemma CreateOwnStep(p: Params, s: State, t: Tid)
    requires p.Valid() && Enabled(p, s, CreateAndUnlock(t)) && ThreadInv(p, s, t)
    ensures ThreadInv(p, Apply(p, s, CreateAndUnlock(t)), t)
  {
    var s' := Apply(p, s, CreateAndUnlock(t));
    assert s'.readers == s.readers && s'.registered == s.registered && s'.Of(t).pc == WantRead(s.Of(t).pc.stage);
  }

  lemma LookAgainStep(p: Params, s: State, t: Tid)
    requires p.Valid() && Enabled(p, s, LookAgain(t)) && ThreadInv(p, s, t)
    ensures ThreadInv(p, Apply(p, s, LookAgain(t)), t)
  {
  }

  lemma LookStep(p: Params, s: State, t: Tid)
    requires p.Valid() && Enabled(p, s, Look(t)) && ThreadInv(p, s, t)
    ensures ThreadInv(p, Apply(p, s, Look(t)), t)
  {
  }

  lemma CheckStep(p: Params, s: State, t: Tid)
    requires p.Valid() && StoreInv(p, s) && NothingInvented(s) && Enabled(p, s, Check(t)) && ThreadInv(p, s, t)
    ensures ThreadInv(p, Apply(p, s, Check(t)), t)
  {
    var th := s.Of(t);
    if th.pc.stage.Current? && th.id in s.store.caches[th.pc.cache] {
      assert th.id in s.live[th.start];
    }
  }

  lemma InvStep(p: Params, s: State, a: Action)
    requires p.Valid() && Inv(p, s) && Enabled(p, s, a)
    ensures Inv(p, Apply(p, s, a))
  {
    StoreStep(p, s, a);
    NothingInventedStep(p, s, a);
    LockStep(p, s, a);
    forall u ensures ThreadInv(p, Apply(p, s, a), u) {
      assert ThreadInv(p, s, u) && (!a.Forget? ==> ThreadInv(p, s, a.t));
      if !a.Forget? && a.t == u {
        OwnStep(p, s, a);
      } else {
        OtherThreadStep(p, s, a, u);
      }
    }
  }

  // ---- runs ----

  ghost predicate CanRun(p: Params, actions: seq<Action>)
    requires p.Valid()
    decreases |actions|, 0
  {
    actions != [] ==>
      var n := |actions| - 1;
      CanRun(p, actions[..n]) && Enabled(p, Run(p, actions[..n]), actions[n])
  }

  ghost function Run(p: Params, actions: seq<Action>): State
    requires p.Valid() && CanRun(p, actions)
    decreases |actions|, 1
  {
    if actions == [] then INIT
    else
      var n := |actions| - 1;
      Apply(p, Run(p, actions[..n]), actions[n])
  }

  lemma {:induction false} RunKeepsInv(p: Params, actions: seq<Action>)
    requires p.Valid() && CanRun(p, actions)
    ensures Inv(p, Run(p, actions))
  {
    if actions == [] {
      assert |INIT.live.Keys| == 0;
    } else {
      var n := |actions| - 1;
      RunKeepsInv(p, actions[..n]);
      InvStep(p, Run(p, actions[..n]), actions[n]);
    }
  }

  lemma {:induction false} PrefixRuns(p: Params, actions: seq<Action>, i: nat)
    requires p.Valid() && CanRun(p, actions) && i <= |actions|
    ensures CanRun(p, actions[..i])
  {
    if i < |actions| {
      PrefixRuns(p, actions[..|actions| - 1], i);
      assert actions[..|actions| - 1][..i] == actions[..i];
    } else {
      assert actions[..i] == actions;
    }
  }

  /** The action at i registers the pair while its bucket is live. */
  ghost predicate AppliesAt(p: Params, actions: seq<Action>, i: nat, id: Id, start: Millis)
    requires p.Valid()
  {
    && i < |actions| && actions[i].ApplyRowStep? && actions[i].row.id == id && actions[i].row.start == start
    && CanRun(p, actions[..i]) && start in Run(p, actions[..i]).live
  }

  lemma {:induction false} RegisteredWasApplied(p: Params, actions: seq<Action>, id: Id, start: Millis)
    requires p.Valid() && CanRun(p, actions) && (id, start) in Run(p, actions).registered
    ensures exists i: nat :: AppliesAt(p, actions, i, id, start)
  {
    if actions != [] {
      var n := |actions| - 1;
      if (id, start) in Run(p, actions[..n]).registered {
        RegisteredWasApplied(p, actions[..n], id, start);
        var i: nat :| AppliesAt(p, actions[..n], i, id, start);
        assert actions[..n][..i] == actions[..i];
        assert AppliesAt(p, actions, i, id, start);
      } else {
        RunKeepsInv(p, actions[..n]);
        HistoryStep(p, Run(p, actions[..n]), actions[n]);
        assert AppliesAt(p, actions, n, id, start);
      }
    }
  }

  /** History only grows, and a pair is registered only by applying it to a live bucket. */
  lemma HistoryStep(p: Params, s: State, a: Action)
    requires p.Valid() && StoreInv(p, s) && Enabled(p, s, a)
    ensures s.seen <= Apply(p, s, a).seen
    ensures forall id, start :: (id, start) in Apply(p, s, a).registered && (id, start) !in s.registered
              ==> a.ApplyRowStep? && a.row.id == id && a.row.start == start && start in s.live
  {
    if !a.CreateAndUnlock? && !a.ApplyRowStep? && !a.Forget? {
      QuietStep(p, s, a);
    }
  }

  /** In every interleaving, Plan answers current=false only for a pair that was applied while its bucket
      was live, and asks for the next bucket only for such a pair inside its pre-write slot. */
  lemma PlanNeverInventsARegistration(p: Params, actions: seq<Action>, t: Tid)
    requires p.Valid() && CanRun(p, actions)
    requires Run(p, actions).Of(t).Planning? && Run(p, actions).Of(t).pc.Answered?
    ensures var th := Run(p, actions).Of(t);
            && (!th.pc.answer.current ==> exists i: nat :: AppliesAt(p, actions, i, th.id, th.start))
            && (th.pc.answer.next ==> !th.pc.answer.current && Eligible(p, th.id, th.start, th.now))
  {
    RunKeepsInv(p, actions);
    var th := Run(p, actions).Of(t);
    assert ThreadInv(p, Run(p, actions), t);
    if !th.pc.answer.current {
      RegisteredWasApplied(p, actions, th.id, th.start);
    }
  }

  /** In every reachable state the live starts are the largest starts ever passed to createBucket,
      every bucket has a cache of its own, nothing is left spare, and no more caches exist than buckets. */
  lemma LiveBucketsOfEveryRun(p: Params, actions: seq<Action>)
    requires p.Valid() && CanRun(p, actions)
    ensures var s := Run(p, actions);
            && TopK(s.store.buckets.Keys, s.seen, p.maxBuckets)
            && s.store.spareBuckets == [] && |s.store.caches| == |s.store.buckets| <= p.maxBuckets
            && (forall a, b :: a in s.store.buckets && b in s.store.buckets && a != b
                               ==> s.store.buckets[a] != s.store.buckets[b])
  {
    RunKeepsInv(p, actions);
  }

  lemma {:induction false} SeenGrows(p: Params, actions: seq<Action>, i: nat)
    requires p.Valid() && CanRun(p, actions) && i <= |actions| && CanRun(p, actions[..i])
    ensures Run(p, actions[..i]).seen <= Run(p, actions).seen
  {
    if i == |actions| {
      assert actions[..i] == actions;
    } else {
      var n := |actions| - 1;
      assert actions[..n][..i] == actions[..i];
      SeenGrows(p, actions[..n], i);
      RunKeepsInv(p, actions[..n]);
      HistoryStep(p, Run(p, actions[..n]), actions[n]);
    }
  }

  /** A start that was asked for and is not live at some point of a run is not live at any later point. */
  lemma EvictedBucketNeverReturns(p: Params, actions: seq<Action>, i: nat, start: Millis)
    requires p.Valid() && CanRun(p, actions) && i <= |actions| && CanRun(p, actions[..i])
    requires start in Run(p, actions[..i]).seen && start !in Run(p, actions[..i]).store.buckets
    ensures start !in Run(p, actions).store.buckets
  {
    RunKeepsInv(p, actions);
    RunKeepsInv(p, actions[..i]);
    SeenGrows(p, actions, i);
    var before, after := Run(p, actions[..i]), Run(p, actions);
    OutsideTopKStaysOutside(before.live.Keys, before.seen, after.live.Keys, after.seen, p.maxBuckets, start);
  }
}
