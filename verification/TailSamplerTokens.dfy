/**
 Delete tokens, the trace counter and the decision queue of the tail sampler
 (processor/signoztailsampler/processor.go:136-164, 282-308, 360-374), and what every run keeps.
 */
module TailSamplerTokens {
  import opened Sums
  import opened TailSampler

  // ---- one token for each mapped id ----

  /** Between storing its trace and posting its id, a caller holds the token of that id. */
  predicate Admitting(me: Caller) {
    me.Queueing? || me.Counting? || me.Posting? || me.Draining? || me.Dropping? || me.Deleting? || me.Discounting?
  }

  predicate HasVictim(me: Caller) {
    me.Dropping? || me.Deleting?
  }

  predicate Uncounted(me: Caller) {
    me.Queueing? || me.Counting?
  }

  ghost predicate NoDuplicates(ids: seq<Id>) {
    forall i, j :: 0 <= i < j < |ids| ==> ids[i] != ids[j]
  }

  ghost predicate HolderOk(s: State, id: Id)
    requires id in s.holders
  {
    match s.holders[id]
    case Channel => id in s.channel
    case Admitter(c) => c < |s.callers| && Admitting(s.callers[c]) && s.callers[c].id == id
    case Dropper(c) => c < |s.callers| && HasVictim(s.callers[c]) && s.callers[c].victim == id
  }

  ghost predicate CallerHolds(s: State, c: nat)
    requires c < |s.callers|
  {
    var me := s.callers[c];
    && (Admitting(me) ==> me.id in s.holders && s.holders[me.id] == Admitter(c))
    && (HasVictim(me) ==> me.victim in s.holders && s.holders[me.victim] == Dropper(c))
  }

  /** Every mapped id has exactly one token: about to be posted, in the channel, or held by a dropper. */
  ghost predicate Tokens(s: State) {
    && s.holders.Keys == s.table.Keys
    && NoDuplicates(s.channel) && |s.channel| <= s.cap
    && (forall id :: id in s.channel ==> id in s.holders && s.holders[id] == Channel)
    && (forall id :: id in s.holders ==> HolderOk(s, id))
    && (forall c: nat :: c < |s.callers| ==> CallerHolds(s, c))
    && s.missing == 0
  }

  lemma TokensStep(s: State, a: Action)
    requires Tokens(s) && Enabled(s, a)
    ensures Tokens(Next(s, a))
  {
    if IsTick(a) {
      SameTokens(s, Next(s, a));
    } else {
      match a {
        case Store(c) => StoreTokens(s, c);
        case Post(c) => PostTokens(s, c);
        case Drain(c) => DrainTokens(s, c);
        case Delete(c) => DeleteTokens(s, c);
        case Find(c) =>
          assert CallerHolds(s, c);
          CallerTokens(s, Next(s, a), c);
        case Arrive(c) => CallerTokens(s, Next(s, a), c);
        case _ => MoveTokens(s, a);
      }
    }
  }

  lemma MoveTokens(s: State, a: Action)
    requires Tokens(s) && Enabled(s, a)
    requires a.Begin? || a.Load? || a.Enqueue? || a.CountUp? || a.SeeFull? || a.CountDown? || a.ForwardLate?
    ensures Tokens(Next(s, a))
  {
    CallerTokens(s, Next(s, a), a.c);
  }

  lemma SameTokens(s: State, t: State)
    requires Tokens(s) && t.holders == s.holders && t.table == s.table && t.channel == s.channel && t.cap == s.cap
    requires t.callers == s.callers && t.missing == s.missing
    ensures Tokens(t)
  {
    forall id | id in t.holders ensures HolderOk(t, id) {
      assert HolderOk(s, id);
    }
    forall c: nat | c < |t.callers| ensures CallerHolds(t, c) {
      assert CallerHolds(s, c);
    }
  }

  /** Steps in which a caller moves on and keeps the tokens it holds. */
  lemma CallerTokens(s: State, t: State, c: nat)
    requires Tokens(s) && t.holders == s.holders && t.table == s.table && t.channel == s.channel && t.cap == s.cap
    requires c < |s.callers| == |t.callers| && t.callers == s.callers[c := t.callers[c]] && t.missing == s.missing
    requires Admitting(s.callers[c]) <==> Admitting(t.callers[c])
    requires HasVictim(s.callers[c]) <==> HasVictim(t.callers[c])
    requires Admitting(s.callers[c]) ==> t.callers[c].id == s.callers[c].id
    requires HasVictim(s.callers[c]) ==> t.callers[c].victim == s.callers[c].victim
    ensures Tokens(t)
  {
    forall id | id in t.holders ensures HolderOk(t, id) {
      assert HolderOk(s, id);
    }
    forall d: nat | d < |t.callers| ensures CallerHolds(t, d) {
      assert CallerHolds(s, d);
    }
  }

  lemma StoreTokens(s: State, c: nat)
    requires Tokens(s) && Enabled(s, Store(c))
    ensures Tokens(Next(s, Store(c)))
  {
    var t := Next(s, Store(c));
    var id := s.callers[c].id;
    if id in s.table {
      CallerTokens(s, t, c);
    } else {
      assert t.holders.Keys == s.holders.Keys + {id} && t.table.Keys == s.table.Keys + {id};
      forall i | i in t.holders ensures HolderOk(t, i) {
        if i != id { assert HolderOk(s, i); }
      }
      forall d: nat | d < |t.callers| ensures CallerHolds(t, d) {
        assert CallerHolds(s, d);
      }
    }
  }

  lemma PostTokens(s: State, c: nat)
    requires Tokens(s) && Enabled(s, Post(c))
    ensures Tokens(Next(s, Post(c)))
  {
    var t := Next(s, Post(c));
    var id := s.callers[c].id;
    assert CallerHolds(s, c);
    assert t.holders.Keys == s.holders.Keys;
    assert id !in s.channel;
    forall i | i in t.channel ensures i in t.holders && t.holders[i] == Channel {
      assert i in s.channel || i == id;
    }
    forall i | i in t.holders ensures HolderOk(t, i) {
      if i == id {
        assert t.channel[|s.channel|] == id;
      } else {
        assert HolderOk(s, i);
        if i in s.channel { assert i in t.channel; }
      }
    }
    forall d: nat | d < |t.callers| ensures CallerHolds(t, d) {
      assert CallerHolds(s, d);
    }
  }

  lemma DrainChannel(s: State, c: nat, t: State)
    requires Tokens(s) && Enabled(s, Drain(c)) && t == Next(s, Drain(c))
    ensures NoDuplicates(t.channel) && forall i :: i in t.channel <==> i in s.channel && i != s.channel[0]
  {
    assert s.channel == [s.channel[0]] + t.channel;
    forall i | i in t.channel ensures i != s.channel[0] {
      var k :| 0 <= k < |t.channel| && t.channel[k] == i;
      assert s.channel[k + 1] == i;
    }
  }

  lemma DrainTokens(s: State, c: nat)
    requires Tokens(s) && Enabled(s, Drain(c))
    ensures Tokens(Next(s, Drain(c)))
  {
    var t := Next(s, Drain(c));
    var victim := s.channel[0];
    DrainChannel(s, c, t);
    assert CallerHolds(s, c) && victim in s.channel;
    assert t.holders.Keys == s.holders.Keys;
    forall i | i in t.holders ensures HolderOk(t, i) {
      if i != victim { assert HolderOk(s, i); }
    }
    forall d: nat | d < |t.callers| ensures CallerHolds(t, d) {
      assert CallerHolds(s, d);
    }
  }

  lemma DeleteTokens(s: State, c: nat)
    requires Tokens(s) && Enabled(s, Delete(c))
    ensures Tokens(Next(s, Delete(c)))
  {
    var t := Next(s, Delete(c));
    var victim := s.callers[c].victim;
    assert CallerHolds(s, c);
    assert t.holders.Keys == s.holders.Keys - {victim} && t.table.Keys == s.table.Keys - {victim};
    forall i | i in t.holders ensures HolderOk(t, i) {
      assert HolderOk(s, i);
    }
    forall d: nat | d < |t.callers| ensures CallerHolds(t, d) {
      assert CallerHolds(s, d);
    }
  }

  // ---- the number of mapped traces ----

  function Busy(callers: seq<Caller>): nat {
    Sum(IsBusy, callers)
  }

  function IsBusy(me: Caller): nat {
    if me.Idle? then 0 else 1
  }

  /** The ids whose tokens a caller holds. */
  function Held(me: Caller): set<Id> {
    (if Admitting(me) then {me.id} else {}) + (if HasVictim(me) then {me.victim} else {})
  }

  /** The ids whose tokens the callers hold. */
  function Carried(callers: seq<Caller>): set<Id> {
    if callers == [] then {} else Carried(callers[..|callers| - 1]) + Held(callers[|callers| - 1])
  }

  lemma HeldSize(me: Caller)
    ensures |Held(me)| <= 2 * IsBusy(me)
  {
    UnionSize(if Admitting(me) then {me.id} else {}, if HasVictim(me) then {me.victim} else {});
  }

  lemma {:induction false} CarriedSize(callers: seq<Caller>)
    ensures |Carried(callers)| <= 2 * Busy(callers)
  {
    if callers != [] {
      var n := |callers| - 1;
      CarriedSize(callers[..n]);
      HeldSize(callers[n]);
      UnionSize(Carried(callers[..n]), Held(callers[n]));
    }
  }

  lemma {:induction false} CarriedHas(callers: seq<Caller>, c: nat)
    requires c < |callers|
    ensures Held(callers[c]) <= Carried(callers)
  {
    if c < |callers| - 1 {
      CarriedHas(callers[..|callers| - 1], c);
    }
  }

  lemma UnionSize<T>(a: set<T>, b: set<T>)
    ensures |a + b| <= |a| + |b|
  {
    assert a + b == a + (b - a);
    assert |b - a| <= |b| by { SubsetSize(b - a, b); }
  }

  lemma SubsetSize<T>(a: set<T>, b: set<T>)
    requires a <= b
    ensures |a| <= |b|
  {
    assert |b - a| == |b| - |a|;
  }

  function Members(ids: seq<Id>): set<Id> {
    set id | id in ids
  }

  lemma {:induction false} MembersSize(ids: seq<Id>)
    ensures |Members(ids)| <= |ids|
  {
    if ids == [] {
      assert Members(ids) == {};
    } else {
      var n := |ids| - 1;
      MembersSize(ids[..n]);
      assert Members(ids) == Members(ids[..n]) + {ids[n]};
      UnionSize(Members(ids[..n]), {ids[n]});
    }
  }

  /** At most NumTraces traces are mapped, and two more for each call of processTraces in flight. */
  lemma TableIsBounded(s: State)
    requires Tokens(s)
    ensures |s.table| <= s.cap + 2 * Busy(s.callers)
  {
    CarriedSize(s.callers);
    MembersSize(s.channel);
    forall id | id in s.table.Keys ensures id in Members(s.channel) + Carried(s.callers) {
      assert id in s.holders && HolderOk(s, id);
      if !s.holders[id].Channel? {
        CarriedHas(s.callers, s.holders[id].c);
      }
    }
    UnionSize(Members(s.channel), Carried(s.callers));
    SubsetSize(s.table.Keys, Members(s.channel) + Carried(s.callers));
    assert |s.table| == |s.table.Keys|;
  }

  // ---- the trace counter ----

  ghost predicate CallerCount(s: State, c: nat)
    requires c < |s.callers|
  {
    && (c in s.discounting <==> s.callers[c].Discounting?)
    && (Admitting(s.callers[c]) ==> (s.callers[c].id in s.counted <==> !Uncounted(s.callers[c])))
  }

  /** The counter is the number of mapped ids already counted plus the deletions not yet counted down. */
  ghost predicate Counter(s: State) {
    && s.counted <= s.table.Keys
    && s.count == |s.counted| + |s.discounting| < UINT64
    && (forall c: nat :: c < |s.callers| ==> CallerCount(s, c))
    && (forall c: nat :: c in s.discounting ==> c < |s.callers|)
    && (forall id :: id in s.table && id !in s.counted ==> id in s.holders && s.holders[id].Admitter?)
  }

  /** The counter fits its 64 bits as long as the limits do. */
  predicate Fits(s: State) {
    s.cap + 3 * |s.callers| + 1 < UINT64
  }

  lemma {:induction false} BusyAtMostAll(callers: seq<Caller>)
    ensures Busy(callers) <= |callers|
  {
    if callers != [] {
      BusyAtMostAll(callers[..|callers| - 1]);
    }
  }

  lemma {:induction false} IndicesBelow(cs: set<nat>, n: nat)
    requires forall c: nat :: c in cs ==> c < n
    ensures |cs| <= n
  {
    if n > 0 {
      var last: nat := n - 1;
      IndicesBelow(cs - {last}, last);
      assert |cs - {last}| >= |cs| - 1;
    }
  }

  /** Counting up never overflows and counting down never wraps below zero. */
  lemma CounterRoom(s: State)
    requires Tokens(s) && Counter(s) && Fits(s)
    ensures forall c: nat :: c < |s.callers| && s.callers[c].Counting? ==> s.count + 1 < UINT64
    ensures forall c: nat :: c < |s.callers| && s.callers[c].Discounting? ==> s.count >= 1
  {
    TableIsBounded(s);
    BusyAtMostAll(s.callers);
    IndicesBelow(s.discounting, |s.callers|);
    SubsetSize(s.counted, s.table.Keys);
    assert |s.table.Keys| == |s.table|;
    forall c: nat | c < |s.callers| && s.callers[c].Discounting? ensures s.count >= 1 {
      assert CallerCount(s, c);
      SubsetSize({c}, s.discounting);
    }
  }

  lemma SameCounter(s: State, t: State, c: nat)
    requires Counter(s) && t.table == s.table && t.count == s.count && t.counted == s.counted
             && t.discounting == s.discounting
    requires t.holders == s.holders && s.holders.Keys == s.table.Keys
    requires c < |s.callers| ==> |t.callers| == |s.callers| && t.callers == s.callers[c := t.callers[c]]
    requires c >= |s.callers| ==> t.callers == s.callers
    requires c < |s.callers| ==>
               && (s.callers[c].Discounting? <==> t.callers[c].Discounting?)
               && (Admitting(t.callers[c]) ==> Admitting(s.callers[c]) && t.callers[c].id == s.callers[c].id
                                               && (Uncounted(t.callers[c]) <==> Uncounted(s.callers[c])))
    ensures Counter(t)
  {
    forall d: nat | d < |t.callers| ensures CallerCount(t, d) {
      assert CallerCount(s, d);
    }
  }

  lemma StoreCounter(s: State, c: nat)
    requires Tokens(s) && Counter(s) && Enabled(s, Store(c))
    ensures Counter(Next(s, Store(c)))
  {
    var t := Next(s, Store(c));
    if s.callers[c].id in s.table {
      SameCounter(s, t, c);
    } else {
      assert t.table.Keys == s.table.Keys + {s.callers[c].id};
      forall d: nat | d < |t.callers| ensures CallerCount(t, d) {
        assert CallerCount(s, d);
      }
    }
  }

  lemma CountUpCounter(s: State, c: nat)
    requires Tokens(s) && Counter(s) && Fits(s) && c < |s.callers| && s.callers[c].Counting?
    ensures Counter(CountedUp(s, c))
  {
    CounterRoom(s);
    var t := CountedUp(s, c);
    assert CallerHolds(s, c) && CallerCount(s, c);
    assert |t.counted| == |s.counted| + 1;
    forall d: nat | d < |t.callers| ensures CallerCount(t, d) {
      CountUpBystander(s, c, d);
    }
  }

  lemma CountUpBystander(s: State, c: nat, d: nat)
    requires Tokens(s) && Counter(s) && c < |s.callers| && s.callers[c].Counting? && d < |s.callers|
    ensures CallerCount(CountedUp(s, c), d)
  {
    assert CallerCount(s, d) && CallerHolds(s, d) && CallerHolds(s, c) && CallerCount(s, c);
  }

  lemma PostCounter(s: State, c: nat)
    requires Tokens(s) && Counter(s) && Enabled(s, Post(c))
    ensures Counter(Next(s, Post(c)))
  {
    var t := Next(s, Post(c));
    assert CallerCount(s, c);
    forall d: nat | d < |t.callers| ensures CallerCount(t, d) {
      assert CallerCount(s, d);
    }
  }

  lemma DrainCounter(s: State, c: nat)
    requires Tokens(s) && Counter(s) && Enabled(s, Drain(c))
    ensures Counter(Next(s, Drain(c)))
  {
    var t := Next(s, Drain(c));
    assert CallerCount(s, c);
    assert s.channel[0] in s.channel;
    forall d: nat | d < |t.callers| ensures CallerCount(t, d) {
      assert CallerCount(s, d);
    }
  }

  lemma DeleteCounter(s: State, c: nat)
    requires Tokens(s) && Counter(s) && Enabled(s, Delete(c))
    ensures Counter(Next(s, Delete(c)))
  {
    var t := Next(s, Delete(c));
    var victim := s.callers[c].victim;
    assert CallerHolds(s, c) && CallerCount(s, c);
    assert victim in s.counted;
    assert |t.counted| == |s.counted| - 1;
    assert |t.discounting| == |s.discounting| + 1;
    forall d: nat | d < |t.callers| ensures CallerCount(t, d) {
      assert CallerCount(s, d) && CallerHolds(s, d);
    }
  }

  lemma CountDownCounter(s: State, c: nat)
    requires Tokens(s) && Counter(s) && Fits(s) && Enabled(s, CountDown(c))
    ensures Counter(Next(s, CountDown(c)))
  {
    CounterRoom(s);
    var t := Next(s, CountDown(c));
    assert CallerCount(s, c);
    assert |t.discounting| == |s.discounting| - 1;
    forall d: nat | d < |t.callers| ensures CallerCount(t, d) {
      assert CallerCount(s, d);
    }
  }

  lemma CounterStep(s: State, a: Action)
    requires Tokens(s) && Counter(s) && Fits(s) && Enabled(s, a)
    ensures Counter(Next(s, a))
  {
    if IsTick(a) {
      SameCounter(s, Next(s, a), |s.callers|);
    } else {
      match a {
        case Store(c) => StoreCounter(s, c);
        case CountUp(c) => CountUpCounter(s, c);
        case Post(c) => PostCounter(s, c);
        case Drain(c) => DrainCounter(s, c);
        case Delete(c) => DeleteCounter(s, c);
        case CountDown(c) => CountDownCounter(s, c);
        case Find(c) => FindCounter(s, c);
        case Arrive(c) => ArriveCounter(s, c);
        case Enqueue(c) => EnqueueCounter(s, c);
        case _ => MoveCounter(s, a);
      }
    }
  }

  lemma FindCounter(s: State, c: nat)
    requires Tokens(s) && Counter(s) && Enabled(s, Find(c))
    ensures Counter(Next(s, Find(c)))
  {
    assert CallerHolds(s, c);
    SameCounter(s, Next(s, Find(c)), c);
  }

  lemma ArriveCounter(s: State, c: nat)
    requires Tokens(s) && Counter(s) && c < |s.callers| && s.callers[c].Arriving?
    requires s.callers[c].ref < |s.traces| && s.callers[c].batch < |s.arrivals|
    ensures Counter(Arrived(s, c))
  {
    SameCounter(s, Arrived(s, c), c);
  }

  lemma EnqueueCounter(s: State, c: nat)
    requires Tokens(s) && Counter(s) && c < |s.callers| && s.callers[c].Queueing? && s.callers[c].ref < |s.traces|
    ensures Counter(Enqueued(s, c))
  {
    SameCounter(s, Enqueued(s, c), c);
  }

  lemma MoveCounter(s: State, a: Action)
    requires Tokens(s) && Counter(s) && Enabled(s, a) && (a.Begin? || a.Load? || a.SeeFull? || a.ForwardLate?)
    ensures Counter(Next(s, a))
  {
    SameCounter(s, Next(s, a), a.c);
  }

  // ---- decisions per admission ----

  function QueuedFor(id: Id): Trace -> nat {
    (t: Trace) => if t.id == id && t.queued then 1 else 0
  }

  function DecisionsFor(id: Id): Trace -> nat {
    (t: Trace) => if t.id == id then |t.decisions| else 0
  }

  function AdmissionsOf(id: Id): Trace -> nat {
    (t: Trace) => if t.id == id then 1 else 0
  }

  function BeingDecided(s: State, id: Id): nat {
    if s.ticker.Deciding? && s.ticker.ref < |s.traces| && s.traces[s.ticker.ref].id == id then 1 else 0
  }

  ghost predicate CallerRef(s: State, c: nat)
    requires c < |s.callers|
  {
    var me := s.callers[c];
    && (Admitting(me) || me.Arriving? ==> me.ref < |s.traces| && s.traces[me.ref].id == me.id)
    && (me.Queueing? ==> !s.traces[me.ref].queued)
    && (me.Arriving? ==> me.batch < |s.arrivals|)
  }

  /** References lead to a trace of the right id, and two callers queueing traces have different ones. */
  ghost predicate Refs(s: State) {
    && (forall id :: id in s.table ==> s.table[id] < |s.traces| && s.traces[s.table[id]].id == id)
    && (forall c: nat :: c < |s.callers| ==> CallerRef(s, c))
    && (forall c: nat, d: nat :: c < d < |s.callers| && s.callers[c].Queueing? && s.callers[d].Queueing?
                                 ==> s.callers[c].ref != s.callers[d].ref)
    && (s.ticker.Deciding? ==> s.ticker.ref < |s.traces|)
  }

  ghost predicate QueueOk(s: State, id: Id) {
    && multiset(s.popped + s.queue)[id] == Sum(QueuedFor(id), s.traces)
    && Sum(DecisionsFor(id), s.traces) + BeingDecided(s, id) <= multiset(s.popped)[id]
  }

  /** Traces keep their ids and marks; one caller moves on with the reference it had, or to a looked-up one. */
  lemma SameRefs(s: State, t: State, c: nat)
    requires Refs(s) && c < |s.callers| == |t.callers| && t.callers == s.callers[c := t.callers[c]]
    requires t.table == s.table && t.ticker == s.ticker && |s.arrivals| <= |t.arrivals| && |t.traces| == |s.traces|
    requires forall r: Ref :: r < |s.traces| ==>
               t.traces[r].id == s.traces[r].id && t.traces[r].queued == s.traces[r].queued
    requires !t.callers[c].Queueing? && CallerRef(t, c)
    ensures Refs(t)
  {
    forall d: nat | d < |t.callers| ensures CallerRef(t, d) {
      assert CallerRef(s, d);
    }
  }

  lemma StoreRefs(s: State, c: nat)
    requires Refs(s) && Delivery(s) && Enabled(s, Store(c))
    ensures Refs(Next(s, Store(c)))
  {
    var t := Next(s, Store(c));
    forall d: nat | d < |t.callers| ensures CallerRef(t, d) {
      assert CallerRef(s, d) && CallerBatchOk(s, d);
    }
    forall d: nat | d < |s.callers| ensures s.callers[d].Queueing? ==> s.callers[d].ref < |s.traces| {
      assert CallerRef(s, d);
    }
  }

  lemma EnqueueRefs(s: State, c: nat)
    requires Refs(s) && c < |s.callers| && s.callers[c].Queueing? && s.callers[c].ref < |s.traces|
    ensures Refs(Enqueued(s, c))
  {
    var t := Enqueued(s, c);
    assert CallerRef(s, c);
    forall d: nat | d < |t.callers| ensures CallerRef(t, d) {
      assert CallerRef(s, d);
    }
  }

  lemma TickRefs(s: State, a: Action)
    requires Refs(s) && Enabled(s, a) && IsTick(a)
    ensures Refs(Next(s, a))
  {
    var t := Next(s, a);
    forall d: nat | d < |t.callers| ensures CallerRef(t, d) {
      assert CallerRef(s, d);
    }
  }

  lemma DeleteRefs(s: State, c: nat)
    requires Refs(s) && Enabled(s, Delete(c))
    ensures Refs(Next(s, Delete(c)))
  {
    var t := Next(s, Delete(c));
    forall d: nat | d < |t.callers| ensures CallerRef(t, d) {
      assert CallerRef(s, d);
    }
  }

  lemma RefsStep(s: State, a: Action)
    requires Refs(s) && Delivery(s) && Enabled(s, a)
    ensures Refs(Next(s, a))
  {
    if IsTick(a) {
      TickRefs(s, a);
    } else {
      match a {
        case Store(c) => StoreRefs(s, c);
        case Enqueue(c) => EnqueueRefs(s, c);
        case Delete(c) => DeleteRefs(s, c);
        case Load(c) => LookupRefs(s, c);
        case Arrive(c) => ArriveRefs(s, c);
        case Begin(_, _) => BatchRefs(s, a);
        case ForwardLate(_) => BatchRefs(s, a);
        case Drain(_) => DroppingRefs(s, a);
        case Find(_) => DroppingRefs(s, a);
        case CountDown(_) => DroppingRefs(s, a);
        case _ => PostingRefs(s, a);
      }
    }
  }

  lemma LookupRefs(s: State, c: nat)
    requires Refs(s) && Delivery(s) && Enabled(s, Load(c))
    ensures Refs(Next(s, Load(c)))
  {
    assert CallerBatchOk(s, c);
    SameRefs(s, Next(s, Load(c)), c);
  }

  lemma ArriveRefs(s: State, c: nat)
    requires Refs(s) && c < |s.callers| && s.callers[c].Arriving?
    requires s.callers[c].ref < |s.traces| && s.callers[c].batch < |s.arrivals|
    ensures Refs(Arrived(s, c))
  {
    SameRefs(s, Arrived(s, c), c);
  }

  lemma BatchRefs(s: State, a: Action)
    requires Refs(s) && Delivery(s) && Enabled(s, a) && (a.Begin? || a.ForwardLate?)
    ensures Refs(Next(s, a))
  {
    SameRefs(s, Next(s, a), a.c);
  }

  lemma PostingRefs(s: State, a: Action)
    requires Refs(s) && Delivery(s) && Enabled(s, a) && (a.CountUp? || a.Post? || a.SeeFull?)
    ensures Refs(Next(s, a))
  {
    assert CallerRef(s, a.c) && CallerBatchOk(s, a.c);
    SameRefs(s, Next(s, a), a.c);
  }

  lemma DroppingRefs(s: State, a: Action)
    requires Refs(s) && Enabled(s, a) && (a.Drain? || a.Find? || a.CountDown?)
    ensures Refs(Next(s, a))
  {
    assert CallerRef(s, a.c);
    SameRefs(s, Next(s, a), a.c);
  }

  /** A trace is replaced by one with the same id: both sums move by what the trace itself contributes. */
  lemma ReplaceTrace(s: State, r: Ref, tr: Trace, id: Id)
    requires r < |s.traces| && tr.id == s.traces[r].id
    ensures Sum(QueuedFor(id), s.traces[r := tr]) + QueuedFor(id)(s.traces[r])
            == Sum(QueuedFor(id), s.traces) + QueuedFor(id)(tr)
    ensures Sum(DecisionsFor(id), s.traces[r := tr]) + DecisionsFor(id)(s.traces[r])
            == Sum(DecisionsFor(id), s.traces) + DecisionsFor(id)(tr)
  {
    SumUpdate(QueuedFor(id), s.traces, r, tr);
    SumUpdate(DecisionsFor(id), s.traces, r, tr);
  }

  lemma EnqueueQueue(s: State, c: nat, id: Id)
    requires Refs(s) && QueueOk(s, id)
    requires c < |s.callers| && s.callers[c].Queueing? && s.callers[c].ref < |s.traces|
    ensures QueueOk(Enqueued(s, c), id)
  {
    var t := Enqueued(s, c);
    var me := s.callers[c];
    assert CallerRef(s, c);
    ReplaceTrace(s, me.ref, s.traces[me.ref].(queued := true), id);
    assert t.popped + t.queue == (s.popped + s.queue) + [me.id];
  }

  lemma DecideQueue(s: State, sampled: bool, id: Id)
    requires QueueOk(s, id) && Enabled(s, TickDecide(sampled))
    ensures QueueOk(Next(s, TickDecide(sampled)), id)
  {
    var tr := s.traces[s.ticker.ref];
    ReplaceTrace(s, s.ticker.ref, tr.(decisions := tr.decisions + [sampled]), id);
  }

  lemma AddedQueue(s: State, t: State, added: Trace, id: Id)
    requires QueueOk(s, id) && t.traces == s.traces + [added] && added.decisions == [] && !added.queued
    requires t.popped == s.popped && t.queue == s.queue && t.ticker == s.ticker
    requires s.ticker.Deciding? ==> s.ticker.ref < |s.traces|
    ensures QueueOk(t, id)
  {
    SumAppend(QueuedFor(id), s.traces, added);
    SumAppend(DecisionsFor(id), s.traces, added);
  }

  lemma StoreQueue(s: State, c: nat, id: Id)
    requires QueueOk(s, id) && Enabled(s, Store(c))
    requires s.ticker.Deciding? ==> s.ticker.ref < |s.traces|
    ensures QueueOk(Next(s, Store(c)), id)
  {
    if s.callers[c].id !in s.table {
      AddedQueue(s, Next(s, Store(c)), Trace(s.callers[c].id, [], [], false), id);
    }
  }

  lemma ArriveQueue(s: State, c: nat, id: Id)
    requires QueueOk(s, id) && c < |s.callers| && s.callers[c].Arriving?
    requires s.callers[c].ref < |s.traces| && s.callers[c].batch < |s.arrivals|
    ensures QueueOk(Arrived(s, c), id)
  {
    var me := s.callers[c];
    var tr := s.traces[me.ref];
    if tr.decisions == [] {
      ReplaceTrace(s, me.ref, tr.(received := tr.received + [me.batch]), id);
    }
  }

  lemma LoadQueue(s: State, id: Id)
    requires Refs(s) && QueueOk(s, id) && Enabled(s, TickLoad)
    ensures QueueOk(Next(s, TickLoad), id)
  {
    var t := Next(s, TickLoad);
    assert t.popped + t.queue == s.popped + s.queue;
  }

  lemma SameQueue(s: State, a: Action, id: Id)
    requires QueueOk(s, id) && Enabled(s, a)
    requires !a.Store? && !a.Enqueue? && !a.Arrive? && !a.TickLoad? && !a.TickDecide?
    ensures QueueOk(Next(s, a), id)
  {
    var t := Next(s, a);
    assert t.traces == s.traces && t.queue == s.queue && t.popped == s.popped
           && (a.TickForward? || t.ticker == s.ticker);
  }

  lemma QueueStep(s: State, a: Action, id: Id)
    requires Refs(s) && QueueOk(s, id) && Enabled(s, a)
    ensures QueueOk(Next(s, a), id)
  {
    match a {
      case Store(c) => StoreQueue(s, c, id);
      case Enqueue(c) => EnqueueQueue(s, c, id);
      case Arrive(c) => ArriveQueue(s, c, id);
      case TickLoad => LoadQueue(s, id);
      case TickDecide(sampled) => DecideQueue(s, sampled, id);
      case _ => SameQueue(s, a, id);
    }
  }

  lemma {:induction false} QueuedAtMostAdmitted(id: Id, traces: seq<Trace>)
    ensures Sum(QueuedFor(id), traces) <= Sum(AdmissionsOf(id), traces)
  {
    if traces != [] {
      QueuedAtMostAdmitted(id, traces[..|traces| - 1]);
    }
  }

  // ---- nobody is stuck ----

  /** A caller that will post its token without waiting for anyone. */
  predicate WillPost(me: Caller) {
    me.Posting? || me.Dropping? || me.Deleting? || me.Discounting?
  }

  /** Whoever waits on the delete channel finds a token in it, or somebody about to put one there. */
  ghost predicate Fed(s: State) {
    (exists c: nat :: c < |s.callers| && s.callers[c].Draining?) ==>
      s.channel != [] || exists c: nat :: c < |s.callers| && WillPost(s.callers[c])
  }

  lemma FedStep(s: State, a: Action)
    requires s.cap >= 1 && Fed(s) && Enabled(s, a)
    ensures Fed(Next(s, a))
  {
    if IsTick(a) {
      TickFed(s, a);
    } else if a.Drain? || a.Find? || a.Delete? || a.CountUp? || a.CountDown? {
      PosterFed(s, a);
    } else if !a.Post? && !a.SeeFull? {
      CalmFed(s, a);
    }
  }

  lemma TickFed(s: State, a: Action)
    requires Fed(s) && Enabled(s, a) && IsTick(a)
    ensures Fed(Next(s, a))
  {
    assert Next(s, a).callers == s.callers && Next(s, a).channel == s.channel;
  }

  lemma PosterFed(s: State, a: Action)
    requires Enabled(s, a) && (a.Drain? || a.Find? || a.Delete? || a.CountUp? || a.CountDown?)
    ensures Fed(Next(s, a))
  {
    assert WillPost(Next(s, a).callers[a.c]);
  }

  lemma CalmFed(s: State, a: Action)
    requires Fed(s) && Enabled(s, a) && !IsTick(a)
    requires a.Begin? || a.Load? || a.Store? || a.Enqueue? || a.Arrive? || a.ForwardLate?
    ensures Fed(Next(s, a))
  {
    BystanderFed(s, Next(s, a), a.c);
  }

  lemma BystanderFed(s: State, t: State, c: nat)
    requires Fed(s) && c < |s.callers| == |t.callers| && t.callers == s.callers[c := t.callers[c]]
    requires t.channel == s.channel
    requires !WillPost(s.callers[c]) && !t.callers[c].Draining?
    ensures Fed(t)
  {
    if d: nat :| d < |t.callers| && t.callers[d].Draining? {
      assert s.callers[d].Draining?;
      if t.channel == [] {
        var e: nat :| e < |s.callers| && WillPost(s.callers[e]);
        assert WillPost(t.callers[e]);
      }
    }
  }

  /** With NumTraces at least 1, while some call of processTraces is in flight some caller can step. */
  lemma SomeCallerCanStep(s: State, c: nat)
    requires s.cap >= 1 && Fed(s) && Refs(s) && Delivery(s) && c < |s.callers| && !s.callers[c].Idle?
    ensures exists a :: !IsTick(a) && !a.Begin? && Enabled(s, a)
  {
    if s.callers[c].Draining? && s.channel == [] {
      var d: nat :| d < |s.callers| && WillPost(s.callers[d]);
      CallerCanStep(s, d);
    } else {
      CallerCanStep(s, c);
    }
  }

  lemma CallerCanStep(s: State, c: nat)
    requires Refs(s) && Delivery(s) && c < |s.callers| && !s.callers[c].Idle?
    requires s.callers[c].Draining? ==> s.channel != []
    ensures exists a :: !IsTick(a) && !a.Begin? && Enabled(s, a)
  {
    assert CallerRef(s, c) && CallerBatchOk(s, c);
    var a := match s.callers[c] {
      case Loading(_, _) => Load(c)
      case Storing(_, _) => Store(c)
      case Queueing(_, _, _) => Enqueue(c)
      case Counting(_, _, _) => CountUp(c)
      case Posting(_, _, _) => if |s.channel| < s.cap then Post(c) else SeeFull(c)
      case Draining(_, _, _) => Drain(c)
      case Dropping(_, _, _, _) => Find(c)
      case Deleting(_, _, _, _) => Delete(c)
      case Discounting(_, _, _) => CountDown(c)
      case Arriving(_, _, _) => Arrive(c)
      case Forwarding(_, _) => ForwardLate(c)
      case Idle => TickLoad
    };
    assert !IsTick(a) && !a.Begin? && Enabled(s, a);
  }

  // ---- runs ----

  ghost predicate Inv(s: State) {
    && s.cap >= 1 && Fits(s)
    && Delivery(s) && Tokens(s) && Counter(s) && Refs(s) && Fed(s)
    && forall id :: QueueOk(s, id)
  }

  lemma InvStep(s: State, a: Action)
    requires Inv(s) && Enabled(s, a)
    ensures Inv(Next(s, a))
  {
    DeliveryStep(s, a);
    TokensStep(s, a);
    CounterStep(s, a);
    RefsStep(s, a);
    FedStep(s, a);
    forall id ensures QueueOk(Next(s, a), id) {
      QueueStep(s, a, id);
    }
    Sizes(s, a);
  }

  lemma Sizes(s: State, a: Action)
    requires Enabled(s, a)
    ensures Next(s, a).cap == s.cap && |Next(s, a).callers| == |s.callers|
  {
    if IsTick(a) {
      TickSizes(s, a);
    }
  }

  lemma TickSizes(s: State, a: Action)
    requires Enabled(s, a) && IsTick(a)
    ensures Next(s, a).cap == s.cap && Next(s, a).callers == s.callers
  {
  }

  lemma InitInv(cap: nat, callers: nat)
    requires cap >= 1 && cap + 3 * callers + 1 < UINT64
    ensures Inv(Init(cap, callers))
  {
    var s := Init(cap, callers);
    forall id ensures QueueOk(s, id) {
      assert s.popped + s.queue == [];
    }
  }

  ghost predicate CanRun(cap: nat, callers: nat, actions: seq<Action>)
    decreases |actions|, 0
  {
    actions != [] ==>
      var n := |actions| - 1;
      CanRun(cap, callers, actions[..n]) && Enabled(Run(cap, callers, actions[..n]), actions[n])
  }

  ghost function Run(cap: nat, callers: nat, actions: seq<Action>): State
    requires CanRun(cap, callers, actions)
    decreases |actions|, 1
  {
    if actions == [] then Init(cap, callers)
    else
      var n := |actions| - 1;
      Next(Run(cap, callers, actions[..n]), actions[n])
  }

  /** NumTraces is at least 1, and it and the number of concurrent callers fit the 64-bit counter. */
  predicate Limits(cap: nat, callers: nat) {
    cap >= 1 && cap + 3 * callers + 1 < UINT64
  }

  lemma {:induction false} RunKeepsInv(cap: nat, callers: nat, actions: seq<Action>)
    requires Limits(cap, callers) && CanRun(cap, callers, actions)
    ensures Inv(Run(cap, callers, actions)) && Run(cap, callers, actions).cap == cap
  {
    if actions == [] {
      InitInv(cap, callers);
    } else {
      var n := |actions| - 1;
      RunKeepsInv(cap, callers, actions[..n]);
      InvStep(Run(cap, callers, actions[..n]), actions[n]);
      Sizes(Run(cap, callers, actions[..n]), actions[n]);
    }
  }

  predicate Quiescent(s: State) {
    s.ticker.Waiting? && forall c :: 0 <= c < |s.callers| ==> s.callers[c].Idle?
  }

  /** A batch was forwarded once for each sampled decision of its trace if it was buffered, and once if
      the decision it met was sampled if it came late. */
  ghost predicate AsDecided(s: State, b: Batch)
    requires b < |s.arrivals|
  {
    match s.arrivals[b]
    case OnItsWay => s.forwarded[b] == 0
    case Buffered(r) => r < |s.traces| && s.forwarded[b] == Trues(s.traces[r].decisions)
    case Late(r, seen, _, _) =>
      && r < |s.traces| && 1 <= seen <= |s.traces[r].decisions|
      && s.forwarded[b] == if s.traces[r].decisions[seen - 1] then 1 else 0
  }

  lemma QuiescentAsDecided(s: State, b: Batch)
    requires Delivery(s) && Quiescent(s) && b < |s.arrivals|
    ensures AsDecided(s, b)
  {
    assert ArrivalOk(s, b) && Balanced(s);
    assert s.forwarded[b] + InTick(s)[b] == Due(s, b);
  }

  /** However arrivals and ticks interleave, once everyone is idle each batch has been forwarded as the
      decisions of its trace say. */
  lemma ForwardedAsDecided(cap: nat, callers: nat, actions: seq<Action>, b: Batch)
    requires Limits(cap, callers) && CanRun(cap, callers, actions)
    requires Quiescent(Run(cap, callers, actions)) && b < |Run(cap, callers, actions).arrivals|
    ensures AsDecided(Run(cap, callers, actions), b)
  {
    RunKeepsInv(cap, callers, actions);
    QuiescentAsDecided(Run(cap, callers, actions), b);
  }

  /** The trace a batch went to. */
  function TraceOf(s: State, b: Batch): (r: Ref)
    requires b < |s.arrivals| && !s.arrivals[b].OnItsWay?
  {
    match s.arrivals[b]
    case Buffered(r) => r
    case Late(r, _, _, _) => r
  }

  lemma OneDecision(s: State, b: Batch)
    requires b < |s.arrivals| && !s.arrivals[b].OnItsWay? && AsDecided(s, b)
    requires TraceOf(s, b) < |s.traces| && |s.traces[TraceOf(s, b)].decisions| == 1
    ensures s.forwarded[b] == if s.traces[TraceOf(s, b)].decisions[0] then 1 else 0
  {
    var decisions := s.traces[TraceOf(s, b)].decisions;
    assert decisions[..0] == [] && Trues(decisions[..0]) == 0;
    assert Trues(decisions) == if decisions[0] then 1 else 0;
  }

  /** A trace decided by exactly one tick: each of its batches is forwarded exactly once if it was
      sampled, whether it came before or after the decision, and never otherwise. */
  lemma DecidedOnceForwardedOnce(cap: nat, callers: nat, actions: seq<Action>, b: Batch)
    requires Limits(cap, callers) && CanRun(cap, callers, actions) && Quiescent(Run(cap, callers, actions))
    requires b < |Run(cap, callers, actions).arrivals| && !Run(cap, callers, actions).arrivals[b].OnItsWay?
    requires var s := Run(cap, callers, actions);
             TraceOf(s, b) < |s.traces| && |s.traces[TraceOf(s, b)].decisions| == 1
    ensures var s := Run(cap, callers, actions);
            s.forwarded[b] == if s.traces[TraceOf(s, b)].decisions[0] then 1 else 0
  {
    ForwardedAsDecided(cap, callers, actions, b);
    OneDecision(Run(cap, callers, actions), b);
  }

  /** A trace is decided more often than once only if its id was admitted more often than once. */
  lemma AdmittedOnceDecidedOnce(cap: nat, callers: nat, actions: seq<Action>, r: Ref)
    requires Limits(cap, callers) && CanRun(cap, callers, actions) && r < |Run(cap, callers, actions).traces|
    requires var s := Run(cap, callers, actions); Sum(AdmissionsOf(s.traces[r].id), s.traces) == 1
    ensures |Run(cap, callers, actions).traces[r].decisions| <= 1
  {
    RunKeepsInv(cap, callers, actions);
    var s := Run(cap, callers, actions);
    var id := s.traces[r].id;
    assert QueueOk(s, id);
    QueuedAtMostAdmitted(id, s.traces);
    SumAtLeast(DecisionsFor(id), s.traces, r);
    assert multiset(s.popped + s.queue)[id] >= multiset(s.popped)[id] by {
      assert multiset(s.popped + s.queue) == multiset(s.popped) + multiset(s.queue);
    }
  }

  /** In every reachable state: each mapped id has exactly one token, a dropped id is always on the table,
      the counter tells the mapped traces up to the calls in flight and never wraps, and the table holds
      at most NumTraces ids plus two for each call in flight. */
  lemma TokensOfEveryRun(cap: nat, callers: nat, actions: seq<Action>)
    requires Limits(cap, callers) && CanRun(cap, callers, actions)
    ensures var s := Run(cap, callers, actions);
            && s.holders.Keys == s.table.Keys && (forall id :: id in s.holders ==> HolderOk(s, id))
            && s.missing == 0
            && |s.table| <= cap + 2 * Busy(s.callers)
            && (forall c: nat :: c < |s.callers| && s.callers[c].Discounting? ==> s.count >= 1)
            && (forall c: nat :: c < |s.callers| && s.callers[c].Counting? ==> s.count + 1 < UINT64)
  {
    RunKeepsInv(cap, callers, actions);
    TableIsBounded(Run(cap, callers, actions));
    CounterRoom(Run(cap, callers, actions));
  }

  lemma {:induction false} NobodyBusy(callers: seq<Caller>)
    requires forall c :: 0 <= c < |callers| ==> callers[c].Idle?
    ensures Busy(callers) == 0
  {
    if callers != [] {
      NobodyBusy(callers[..|callers| - 1]);
    }
  }

  lemma QuiescentCounter(s: State)
    requires Tokens(s) && Counter(s) && Quiescent(s)
    ensures s.count == |s.table| <= s.cap
  {
    TableIsBounded(s);
    NobodyBusy(s.callers);
    forall c: nat ensures c !in s.discounting {
      if c < |s.callers| {
        assert CallerCount(s, c);
      }
    }
    assert s.discounting == {};
    forall id | id in s.table ensures id in s.counted {
      assert id in s.holders && HolderOk(s, id);
    }
    assert s.counted == s.table.Keys;
    assert |s.table.Keys| == |s.table|;
  }

  /** When nothing is in flight the counter is exactly the number of mapped traces, and that is within NumTraces. */
  lemma QuietCounterIsExact(cap: nat, callers: nat, actions: seq<Action>)
    requires Limits(cap, callers) && CanRun(cap, callers, actions) && Quiescent(Run(cap, callers, actions))
    ensures Run(cap, callers, actions).count == |Run(cap, callers, actions).table| <= cap
  {
    RunKeepsInv(cap, callers, actions);
    QuiescentCounter(Run(cap, callers, actions));
  }

  /** No call of processTraces waits for ever on the delete channel while nobody can move. */
  lemma NoCallerDeadlock(cap: nat, callers: nat, actions: seq<Action>, c: nat)
    requires Limits(cap, callers) && CanRun(cap, callers, actions)
    requires c < |Run(cap, callers, actions).callers| && !Run(cap, callers, actions).callers[c].Idle?
    ensures exists a :: !IsTick(a) && !a.Begin? && Enabled(Run(cap, callers, actions), a)
  {
    RunKeepsInv(cap, callers, actions);
    SomeCallerCanStep(Run(cap, callers, actions), c);
  }
}
