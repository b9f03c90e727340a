/**
 The order in which the tail sampler decides and drops traces, and when it drops any
 (processor/signoztailsampler/processor.go:136-146, 297-308, 360-374), told by the steps of a run.
 */
module TailSamplerOrder {
  import opened Sums
  import opened TailSampler
  import opened TailSamplerTokens

  // ---- first come, first served ----

  datatype Kind = Posted | Drained | Queued | Popped

  /** The ids that steps of one kind moved, in the order of the run. */
  ghost function Moved(cap: nat, callers: nat, actions: seq<Action>, kind: Kind): seq<Id>
    requires CanRun(cap, callers, actions)
  {
    if actions == [] then []
    else
      var n := |actions| - 1;
      Moved(cap, callers, actions[..n], kind) + MovedBy(Run(cap, callers, actions[..n]), actions[n], kind)
  }

  function MovedBy(s: State, a: Action, kind: Kind): seq<Id>
    requires Enabled(s, a)
  {
    match kind
    case Posted => if a.Post? then [s.callers[a.c].id] else []
    case Drained => if a.Drain? then [s.channel[0]] else []
    case Queued => if a.Enqueue? then [s.callers[a.c].id] else []
    case Popped => if a.TickLoad? then [s.queue[0]] else []
  }

  lemma ChannelStep(s: State, a: Action)
    requires Enabled(s, a)
    ensures s.channel + MovedBy(s, a, Posted) == MovedBy(s, a, Drained) + Next(s, a).channel
  {
    match a {
      case Drain(_) => assert s.channel == [s.channel[0]] + s.channel[1..];
      case Post(_) =>
      case _ => assert Next(s, a).channel == s.channel;
    }
  }

  lemma QueueOrderStep(s: State, a: Action)
    requires Enabled(s, a)
    ensures s.queue + MovedBy(s, a, Queued) == MovedBy(s, a, Popped) + Next(s, a).queue
  {
    match a {
      case TickLoad => assert s.queue == [s.queue[0]] + s.queue[1..];
      case Enqueue(c) => assert Next(s, a) == Enqueued(s, c);
      case _ => assert Next(s, a).queue == s.queue;
    }
  }

  lemma Shift<T>(before: seq<T>, mid: seq<T>, more: seq<T>, out: seq<T>, rest: seq<T>)
    requires mid + more == out + rest
    ensures before + mid + more == before + out + rest
  {
    assert before + mid + more == before + (mid + more) && before + out + rest == before + (out + rest);
  }

  /** Tokens leave the delete channel in the order in which they were posted: the oldest trace is dropped first. */
  lemma {:induction false} DropsAreFirstInFirstOut(cap: nat, callers: nat, actions: seq<Action>)
    requires CanRun(cap, callers, actions)
    ensures Moved(cap, callers, actions, Posted)
            == Moved(cap, callers, actions, Drained) + Run(cap, callers, actions).channel
  {
    if actions != [] {
      var n := |actions| - 1;
      var s := Run(cap, callers, actions[..n]);
      DropsAreFirstInFirstOut(cap, callers, actions[..n]);
      ChannelStep(s, actions[n]);
      Shift(Moved(cap, callers, actions[..n], Drained), s.channel, MovedBy(s, actions[n], Posted),
            MovedBy(s, actions[n], Drained), Run(cap, callers, actions).channel);
    }
  }

  /** Ticks take the ids in the order in which they were admitted. */
  lemma {:induction false} DecisionsAreFirstInFirstOut(cap: nat, callers: nat, actions: seq<Action>)
    requires CanRun(cap, callers, actions)
    ensures Moved(cap, callers, actions, Queued)
            == Moved(cap, callers, actions, Popped) + Run(cap, callers, actions).queue
  {
    if actions != [] {
      var n := |actions| - 1;
      var s := Run(cap, callers, actions[..n]);
      DecisionsAreFirstInFirstOut(cap, callers, actions[..n]);
      QueueOrderStep(s, actions[n]);
      Shift(Moved(cap, callers, actions[..n], Popped), s.queue, MovedBy(s, actions[n], Queued),
            MovedBy(s, actions[n], Popped), Run(cap, callers, actions).queue);
    }
  }

  // ---- nothing is dropped before the limit is passed ----

  function HasToPost(me: Caller): nat {
    if Admitting(me) then 1 else 0
  }

  /** Each trace admitted has posted its token or has a caller that is about to. */
  lemma AdmissionStep(s: State, a: Action)
    requires Enabled(s, a)
    ensures |Next(s, a).traces| + Sum(HasToPost, s.callers)
            == |s.traces| + |MovedBy(s, a, Posted)| + Sum(HasToPost, Next(s, a).callers)
  {
    if IsTick(a) {
      TickAdmits(s, a);
    } else {
      CallAdmits(s, a);
      SumUpdate(HasToPost, s.callers, a.c, Next(s, a).callers[a.c]);
    }
  }

  lemma TickAdmits(s: State, a: Action)
    requires Enabled(s, a) && IsTick(a)
    ensures |Next(s, a).traces| == |s.traces| && Next(s, a).callers == s.callers
  {
  }

  lemma CallAdmits(s: State, a: Action)
    requires Enabled(s, a) && !IsTick(a)
    ensures |Next(s, a).callers| == |s.callers| && Next(s, a).callers == s.callers[a.c := Next(s, a).callers[a.c]]
    ensures |Next(s, a).traces| + HasToPost(s.callers[a.c])
            == |s.traces| + |MovedBy(s, a, Posted)| + HasToPost(Next(s, a).callers[a.c])
  {
    match a {
      case Arrive(c) => ArriveAdmits(s, c);
      case Enqueue(c) => EnqueueAdmits(s, c);
      case _ =>
    }
  }

  lemma ArriveAdmits(s: State, c: nat)
    requires Enabled(s, Arrive(c))
    ensures Next(s, Arrive(c)).callers == s.callers[c := Next(s, Arrive(c)).callers[c]]
    ensures |Next(s, Arrive(c)).traces| == |s.traces| && HasToPost(Next(s, Arrive(c)).callers[c]) == 0
  {
    assert Next(s, Arrive(c)) == Arrived(s, c);
  }

  lemma EnqueueAdmits(s: State, c: nat)
    requires Enabled(s, Enqueue(c))
    ensures Next(s, Enqueue(c)).callers == s.callers[c := Next(s, Enqueue(c)).callers[c]]
    ensures |Next(s, Enqueue(c)).traces| == |s.traces| && HasToPost(Next(s, Enqueue(c)).callers[c]) == 1
  {
    assert Next(s, Enqueue(c)) == Enqueued(s, c);
  }

  lemma {:induction false} NobodyHasToPost(callers: nat)
    ensures Sum(HasToPost, seq(callers, _ => Idle)) == 0
  {
    if callers > 0 {
      NobodyHasToPost(callers - 1);
      assert seq(callers, _ => Idle)[..callers - 1] == seq(callers - 1, _ => Idle);
    }
  }

  lemma {:induction false} EveryTraceHasAToken(cap: nat, callers: nat, actions: seq<Action>)
    requires CanRun(cap, callers, actions)
    ensures |Run(cap, callers, actions).traces|
            == |Moved(cap, callers, actions, Posted)| + Sum(HasToPost, Run(cap, callers, actions).callers)
  {
    if actions == [] {
      NobodyHasToPost(callers);
    } else {
      var n := |actions| - 1;
      EveryTraceHasAToken(cap, callers, actions[..n]);
      AdmissionStep(Run(cap, callers, actions[..n]), actions[n]);
    }
  }

  /** A caller sees the channel full only once more than NumTraces traces have been admitted. */
  lemma FullMeansTooMany(cap: nat, callers: nat, actions: seq<Action>, c: nat)
    requires CanRun(cap, callers, actions) && Enabled(Run(cap, callers, actions), SeeFull(c))
    requires Run(cap, callers, actions).cap == cap
    ensures |Run(cap, callers, actions).traces| > cap
  {
    var s := Run(cap, callers, actions);
    EveryTraceHasAToken(cap, callers, actions);
    DropsAreFirstInFirstOut(cap, callers, actions);
    SumAtLeast(HasToPost, s.callers, c);
  }

  predicate Dropping(me: Caller) {
    me.Draining? || me.Dropping? || me.Deleting? || me.Discounting?
  }

  predicate OnTable(s: State, r: Ref)
    requires r < |s.traces|
  {
    s.traces[r].id in s.table && s.table[s.traces[r].id] == r
  }

  /** Nobody is dropping anything, and every trace is on the table. */
  ghost predicate AllKept(s: State) {
    && (forall c: nat :: c < |s.callers| ==> !Dropping(s.callers[c]))
    && forall r: Ref :: r < |s.traces| ==> OnTable(s, r)
  }

  lemma KeptTick(s: State, a: Action)
    requires AllKept(s) && Enabled(s, a) && IsTick(a)
    ensures AllKept(Next(s, a))
  {
    forall r: Ref | r < |Next(s, a).traces| ensures OnTable(Next(s, a), r) {
      assert OnTable(s, r);
    }
  }

  lemma KeptCall(s: State, a: Action)
    requires AllKept(s) && Enabled(s, a) && !IsTick(a) && !a.SeeFull? && !a.Arrive? && !a.Enqueue? && !a.Store?
    ensures AllKept(Next(s, a))
  {
    assert !Dropping(s.callers[a.c]);
    assert Next(s, a).traces == s.traces && Next(s, a).table == s.table;
    forall r: Ref | r < |Next(s, a).traces| ensures OnTable(Next(s, a), r) {
      assert OnTable(s, r);
    }
  }

  lemma KeptStore(s: State, c: nat)
    requires AllKept(s) && Enabled(s, Store(c))
    ensures AllKept(Next(s, Store(c)))
  {
    var t := Next(s, Store(c));
    forall r: Ref | r < |t.traces| ensures OnTable(t, r) {
      if r < |s.traces| { assert OnTable(s, r); }
    }
  }

  /** Steps that change a trace's contents and not its id. */
  lemma KeptTraces(s: State, t: State, c: nat)
    requires AllKept(s) && c < |s.callers| == |t.callers| && t.callers == s.callers[c := t.callers[c]]
    requires !Dropping(t.callers[c]) && t.table == s.table && |t.traces| == |s.traces|
    requires forall r: Ref :: r < |s.traces| ==> t.traces[r].id == s.traces[r].id
    ensures AllKept(t)
  {
    forall r: Ref | r < |t.traces| ensures OnTable(t, r) {
      assert OnTable(s, r);
    }
  }

  lemma KeptStep(s: State, a: Action)
    requires AllKept(s) && Enabled(s, a) && !a.SeeFull?
    ensures AllKept(Next(s, a))
  {
    if IsTick(a) {
      KeptTick(s, a);
    } else {
      match a {
        case Store(c) => KeptStore(s, c);
        case Arrive(c) => KeptTraces(s, Arrived(s, c), c);
        case Enqueue(c) => KeptTraces(s, Enqueued(s, c), c);
        case _ => KeptCall(s, a);
      }
    }
  }

  lemma OnlyGrows(s: State, a: Action)
    requires Enabled(s, a)
    ensures |Next(s, a).traces| >= |s.traces| && Next(s, a).cap == s.cap
  {
    match a {
      case Arrive(c) => assert Next(s, a) == Arrived(s, c);
      case _ =>
    }
  }

  lemma {:induction false} SameCap(cap: nat, callers: nat, actions: seq<Action>)
    requires CanRun(cap, callers, actions)
    ensures Run(cap, callers, actions).cap == cap
  {
    if actions != [] {
      SameCap(cap, callers, actions[..|actions| - 1]);
      OnlyGrows(Run(cap, callers, actions[..|actions| - 1]), actions[|actions| - 1]);
    }
  }

  /** As long as no more than NumTraces traces have been admitted, none is dropped. */
  lemma {:induction false} NothingIsDroppedWithinTheLimit(cap: nat, callers: nat, actions: seq<Action>)
    requires CanRun(cap, callers, actions) && |Run(cap, callers, actions).traces| <= cap
    ensures AllKept(Run(cap, callers, actions))
  {
    if actions != [] {
      var n := |actions| - 1;
      var s := Run(cap, callers, actions[..n]);
      OnlyGrows(s, actions[n]);
      NothingIsDroppedWithinTheLimit(cap, callers, actions[..n]);
      SameCap(cap, callers, actions[..n]);
      if actions[n].SeeFull? {
        FullMeansTooMany(cap, callers, actions[..n], actions[n].c);
      } else {
        KeptStep(s, actions[n]);
      }
    }
  }

  // ---- and then exactly as many as must go ----

  function IdsOf(traces: seq<Trace>): set<Id> {
    set r: Ref | r < |traces| :: traces[r].id
  }

  lemma {:induction false} DistinctIds(traces: seq<Trace>, table: map<Id, Ref>)
    requires forall r: Ref :: r < |traces| ==> traces[r].id in table && table[traces[r].id] == r
    ensures |IdsOf(traces)| == |traces| && IdsOf(traces) <= table.Keys
  {
    if traces == [] {
      assert IdsOf(traces) == {};
    } else {
      var n := |traces| - 1;
      DistinctIds(traces[..n], table);
      assert IdsOf(traces) == IdsOf(traces[..n]) + {traces[n].id};
      assert traces[n].id !in IdsOf(traces[..n]);
    }
  }

  lemma OnTableFits(s: State)
    requires forall r: Ref :: r < |s.traces| ==> OnTable(s, r)
    ensures |s.traces| <= |s.table|
  {
    forall r: Ref | r < |s.traces| ensures s.traces[r].id in s.table && s.table[s.traces[r].id] == r {
      assert OnTable(s, r);
    }
    DistinctIds(s.traces, s.table);
    SubsetSize(IdsOf(s.traces), s.table.Keys);
    assert |s.table| == |s.table.Keys|;
  }

  /** Once everyone is idle, every trace ever admitted is still on the table if and only if there have been no more
      than NumTraces. */
  lemma AllKeptIffWithinTheLimit(cap: nat, callers: nat, actions: seq<Action>)
    requires Limits(cap, callers) && CanRun(cap, callers, actions) && Quiescent(Run(cap, callers, actions))
    ensures (forall r: Ref :: r < |Run(cap, callers, actions).traces| ==> OnTable(Run(cap, callers, actions), r))
            <==> |Run(cap, callers, actions).traces| <= cap
  {
    var s := Run(cap, callers, actions);
    QuietCounterIsExact(cap, callers, actions);
    if |s.traces| <= cap {
      NothingIsDroppedWithinTheLimit(cap, callers, actions);
    }
    if forall r: Ref :: r < |s.traces| ==> OnTable(s, r) {
      OnTableFits(s);
    }
  }
}
