/**
 Which ticks decide a trace, and what an arriving batch meets
 (processor/signoztailsampler/processor.go:136-164, 311-338), told by the steps of a run.
 */
module TailSamplerDecisions {
  import opened Sums
  import opened TailSampler
  import opened TailSamplerTokens

  // ---- every id popped while on the table is decided ----

  /** The next tick takes an id whose trace on the table is r. */
  predicate PopsTo(s: State, r: Ref) {
    s.queue != [] && s.queue[0] in s.table && s.table[s.queue[0]] == r
  }

  /** How many ticks of the run found the trace on the table under the id they took. */
  ghost function Pops(cap: nat, callers: nat, actions: seq<Action>, r: Ref): nat
    requires CanRun(cap, callers, actions)
  {
    if actions == [] then 0
    else
      var n := |actions| - 1;
      Pops(cap, callers, actions[..n], r)
      + if actions[n].TickLoad? && PopsTo(Run(cap, callers, actions[..n]), r) then 1 else 0
  }

  /** The decisions of a trace, and the one that is being made. */
  function Decided(s: State, r: Ref): nat {
    if r < |s.traces| then |s.traces[r].decisions| + if s.ticker == Deciding(r) then 1 else 0 else 0
  }

  lemma DecidedTick(s: State, a: Action, r: Ref)
    requires Refs(s) && Enabled(s, a) && IsTick(a)
    ensures Decided(Next(s, a), r) == Decided(s, r) + if a.TickLoad? && PopsTo(s, r) then 1 else 0
  {
  }

  lemma DecidedCall(s: State, a: Action, r: Ref)
    requires Refs(s) && Enabled(s, a) && !IsTick(a) && !a.Arrive? && !a.Store? && !a.Enqueue?
    ensures Decided(Next(s, a), r) == Decided(s, r)
  {
    assert Next(s, a).traces == s.traces && Next(s, a).ticker == s.ticker;
  }

  lemma DecidedStore(s: State, c: nat, r: Ref)
    requires Refs(s) && Enabled(s, Store(c))
    ensures Decided(Next(s, Store(c)), r) == Decided(s, r)
  {
  }

  lemma DecidedArrive(s: State, c: nat, r: Ref)
    requires c < |s.callers| && s.callers[c].Arriving?
    requires s.callers[c].ref < |s.traces| && s.callers[c].batch < |s.arrivals|
    ensures Decided(Arrived(s, c), r) == Decided(s, r)
  {
  }

  lemma DecidedEnqueue(s: State, c: nat, r: Ref)
    requires c < |s.callers| && s.callers[c].Queueing? && s.callers[c].ref < |s.traces|
    ensures Decided(Enqueued(s, c), r) == Decided(s, r)
  {
  }

  lemma DecidedStep(s: State, a: Action, r: Ref)
    requires Refs(s) && Enabled(s, a)
    ensures Decided(Next(s, a), r) == Decided(s, r) + if a.TickLoad? && PopsTo(s, r) then 1 else 0
  {
    if IsTick(a) {
      DecidedTick(s, a, r);
    } else {
      match a {
        case Arrive(c) => DecidedArrive(s, c, r);
        case Store(c) => DecidedStore(s, c, r);
        case Enqueue(c) => DecidedEnqueue(s, c, r);
        case _ => DecidedCall(s, a, r);
      }
    }
  }

  lemma {:induction false} DecidedInRun(cap: nat, callers: nat, actions: seq<Action>, r: Ref)
    requires Limits(cap, callers) && CanRun(cap, callers, actions)
    ensures Decided(Run(cap, callers, actions), r) == Pops(cap, callers, actions, r)
  {
    if actions != [] {
      var n := |actions| - 1;
      DecidedInRun(cap, callers, actions[..n], r);
      RunKeepsInv(cap, callers, actions[..n]);
      DecidedStep(Run(cap, callers, actions[..n]), actions[n], r);
    }
  }

  /** Once everyone is idle, a trace has been decided exactly as often as a tick took its id and found it on the
      table. */
  lemma DecidedAsOftenAsPopped(cap: nat, callers: nat, actions: seq<Action>, r: Ref)
    requires Limits(cap, callers) && CanRun(cap, callers, actions) && Quiescent(Run(cap, callers, actions))
    requires r < |Run(cap, callers, actions).traces|
    ensures |Run(cap, callers, actions).traces[r].decisions| == Pops(cap, callers, actions, r)
  {
    DecidedInRun(cap, callers, actions, r);
  }

  /** Tick j decides the trace that tick i took, and no other step of the ticker is in between. */
  ghost predicate DecidesFor(cap: nat, callers: nat, actions: seq<Action>, i: nat, j: nat, r: Ref) {
    && i < j < |actions| && actions[j].TickDecide? && CanRun(cap, callers, actions[..j])
    && Run(cap, callers, actions[..j]).ticker == Deciding(r)
    && forall k :: i < k < j ==> !IsTick(actions[k])
  }

  ghost predicate PoppedAt(cap: nat, callers: nat, actions: seq<Action>, i: nat, r: Ref) {
    && i < |actions| && actions[i].TickLoad? && CanRun(cap, callers, actions[..i])
    && PopsTo(Run(cap, callers, actions[..i]), r)
  }

  lemma OnlyTicksMoveTheTicker(s: State, a: Action)
    requires Enabled(s, a) && (!IsTick(a) || (s.ticker.Deciding? && !a.TickDecide?))
    ensures !IsTick(a) && Next(s, a).ticker == s.ticker
  {
  }

  /** The ticker has not moved since it took the trace. */
  ghost predicate StillDeciding(s: State, actions: seq<Action>, i: nat, r: Ref) {
    s.ticker == Deciding(r) && forall k :: i < k < |actions| ==> !IsTick(actions[k])
  }

  lemma PopStarts(s: State, r: Ref)
    requires Enabled(s, TickLoad) && PopsTo(s, r)
    ensures Next(s, TickLoad).ticker == Deciding(r)
  {
  }

  lemma DecidesBefore(cap: nat, callers: nat, actions: seq<Action>, n: nat, i: nat, j: nat, r: Ref)
    requires n <= |actions| && DecidesFor(cap, callers, actions[..n], i, j, r)
    ensures DecidesFor(cap, callers, actions, i, j, r)
  {
    assert actions[..n][..j] == actions[..j];
    assert forall k :: 0 <= k < n ==> actions[..n][k] == actions[k];
  }

  lemma DecidingStep(cap: nat, callers: nat, actions: seq<Action>, n: nat, s: State, i: nat, r: Ref)
    requires n + 1 == |actions| && i < n && CanRun(cap, callers, actions[..n]) && s == Run(cap, callers, actions[..n])
    requires Enabled(s, actions[n]) && StillDeciding(s, actions[..n], i, r)
    ensures if actions[n].TickDecide? then DecidesFor(cap, callers, actions, i, n, r)
            else StillDeciding(Next(s, actions[n]), actions, i, r)
  {
    assert forall k :: 0 <= k < n ==> actions[..n][k] == actions[k];
    if !actions[n].TickDecide? {
      OnlyTicksMoveTheTicker(s, actions[n]);
    }
  }

  lemma DecidingNow(cap: nat, callers: nat, actions: seq<Action>, i: nat, r: Ref)
    requires CanRun(cap, callers, actions) && i + 1 == |actions| && PoppedAt(cap, callers, actions, i, r)
    ensures StillDeciding(Run(cap, callers, actions), actions, i, r)
  {
    PopStarts(Run(cap, callers, actions[..i]), r);
  }

  lemma DecidingNext(cap: nat, callers: nat, actions: seq<Action>, n: nat, i: nat, r: Ref)
    requires CanRun(cap, callers, actions) && n + 1 == |actions| && i < n
    requires StillDeciding(Run(cap, callers, actions[..n]), actions[..n], i, r)
    ensures DecidesFor(cap, callers, actions, i, n, r) || StillDeciding(Run(cap, callers, actions), actions, i, r)
  {
    DecidingStep(cap, callers, actions, n, Run(cap, callers, actions[..n]), i, r);
  }

  lemma PoppedBefore(cap: nat, callers: nat, actions: seq<Action>, n: nat, i: nat, r: Ref)
    requires i < n <= |actions| && PoppedAt(cap, callers, actions, i, r)
    ensures PoppedAt(cap, callers, actions[..n], i, r)
  {
    assert actions[..n][..i] == actions[..i];
  }

  lemma {:induction false} PoppedIsBeingDecided(cap: nat, callers: nat, actions: seq<Action>, i: nat, r: Ref)
    requires CanRun(cap, callers, actions) && PoppedAt(cap, callers, actions, i, r)
    ensures (exists j: nat :: DecidesFor(cap, callers, actions, i, j, r))
            || StillDeciding(Run(cap, callers, actions), actions, i, r)
  {
    var n := |actions| - 1;
    if i < n {
      PoppedBefore(cap, callers, actions, n, i, r);
      PoppedIsBeingDecided(cap, callers, actions[..n], i, r);
      if j: nat :| DecidesFor(cap, callers, actions[..n], i, j, r) {
        DecidesBefore(cap, callers, actions, n, i, j, r);
      } else {
        DecidingNext(cap, callers, actions, n, i, r);
      }
    } else {
      DecidingNow(cap, callers, actions, i, r);
    }
  }

  /** In a quiescent run, every tick that took an id on the table went on to decide that trace. */
  lemma PoppedIsDecided(cap: nat, callers: nat, actions: seq<Action>, i: nat, r: Ref)
    requires CanRun(cap, callers, actions) && PoppedAt(cap, callers, actions, i, r)
    requires Quiescent(Run(cap, callers, actions))
    ensures exists j: nat :: DecidesFor(cap, callers, actions, i, j, r)
  {
    PoppedIsBeingDecided(cap, callers, actions, i, r);
  }

  // ---- what a batch meets ----

  /** The batch arrived at its trace when that trace had n decisions. */
  predicate Met(s: State, b: Batch, r: Ref, n: nat) {
    && b < |s.arrivals|
    && if n == 0 then s.arrivals[b] == Buffered(r)
       else s.arrivals[b].Late? && s.arrivals[b].ref == r && s.arrivals[b].seen == n
  }

  lemma MetStep(s: State, a: Action, b: Batch, r: Ref, n: nat)
    requires Delivery(s) && Enabled(s, a) && Met(s, b, r, n)
    ensures Met(Next(s, a), b, r, n)
  {
    match a {
      case Arrive(c) =>
        assert CallerBatchOk(s, c);
      case ForwardLate(c) =>
        assert CallerBatchOk(s, c);
      case _ =>
        assert Next(s, a).arrivals[..|s.arrivals|] == s.arrivals;
    }
  }

  /** Decisions are only ever added to. */
  predicate Extends(s: State, t: State, r: Ref) {
    r < |s.traces| && r < |t.traces| && s.traces[r].decisions <= t.traces[r].decisions
  }

  lemma ExtendsStep(s: State, a: Action, r: Ref)
    requires Enabled(s, a) && r < |s.traces|
    ensures Extends(s, Next(s, a), r)
  {
    match a {
      case Arrive(c) =>
        assert Next(s, a) == Arrived(s, c);
      case _ =>
    }
  }

  /** Action i is the arrival of batch b at trace r. */
  ghost predicate ArrivesAt(cap: nat, callers: nat, actions: seq<Action>, i: nat, b: Batch, r: Ref) {
    && i < |actions| && actions[i].Arrive? && CanRun(cap, callers, actions[..i])
    && Enabled(Run(cap, callers, actions[..i]), actions[i])
    && Run(cap, callers, actions[..i]).callers[actions[i].c].batch == b
    && Run(cap, callers, actions[..i]).callers[actions[i].c].ref == r
  }

  /** The decisions that the batch meets. */
  ghost function Meets(cap: nat, callers: nat, actions: seq<Action>, i: nat, b: Batch, r: Ref): seq<bool>
    requires ArrivesAt(cap, callers, actions, i, b, r)
  {
    Run(cap, callers, actions[..i]).traces[r].decisions
  }

  lemma MetNow(s: State, c: nat, b: Batch, r: Ref)
    requires Enabled(s, Arrive(c)) && s.callers[c].batch == b && s.callers[c].ref == r
    ensures Met(Arrived(s, c), b, r, |s.traces[r].decisions|) && Extends(s, Arrived(s, c), r)
  {
  }

  /** What a batch met stays what it met. */
  ghost predicate MetSince(s: State, t: State, b: Batch, r: Ref) {
    r < |s.traces| && Met(t, b, r, |s.traces[r].decisions|) && Extends(s, t, r)
  }

  lemma MetSinceStep(s: State, t: State, a: Action, b: Batch, r: Ref)
    requires MetSince(s, t, b, r) && Delivery(t) && Enabled(t, a)
    ensures MetSince(s, Next(t, a), b, r)
  {
    MetStep(t, a, b, r, |s.traces[r].decisions|);
    ExtendsStep(t, a, r);
  }

  lemma ArrivesBefore(cap: nat, callers: nat, actions: seq<Action>, n: nat, i: nat, b: Batch, r: Ref)
    requires i < n <= |actions| && ArrivesAt(cap, callers, actions, i, b, r)
    ensures ArrivesAt(cap, callers, actions[..n], i, b, r) && actions[..n][..i] == actions[..i]
  {
    assert actions[..n][..i] == actions[..i];
  }

  lemma MetAtOnce(cap: nat, callers: nat, actions: seq<Action>, i: nat, b: Batch, r: Ref)
    requires CanRun(cap, callers, actions) && i + 1 == |actions| && ArrivesAt(cap, callers, actions, i, b, r)
    ensures MetSince(Run(cap, callers, actions[..i]), Run(cap, callers, actions), b, r)
  {
    MetNow(Run(cap, callers, actions[..i]), actions[i].c, b, r);
  }

  lemma MetNext(cap: nat, callers: nat, actions: seq<Action>, n: nat, s: State, b: Batch, r: Ref)
    requires Limits(cap, callers) && CanRun(cap, callers, actions) && n + 1 == |actions|
    requires MetSince(s, Run(cap, callers, actions[..n]), b, r)
    ensures MetSince(s, Run(cap, callers, actions), b, r)
  {
    RunKeepsInv(cap, callers, actions[..n]);
    MetSinceStep(s, Run(cap, callers, actions[..n]), actions[n], b, r);
  }

  lemma {:induction false} MetForGood(cap: nat, callers: nat, actions: seq<Action>, i: nat, b: Batch, r: Ref)
    requires Limits(cap, callers) && CanRun(cap, callers, actions) && ArrivesAt(cap, callers, actions, i, b, r)
    ensures MetSince(Run(cap, callers, actions[..i]), Run(cap, callers, actions), b, r)
  {
    var n := |actions| - 1;
    if i < n {
      ArrivesBefore(cap, callers, actions, n, i, b, r);
      MetForGood(cap, callers, actions[..n], i, b, r);
      MetNext(cap, callers, actions, n, Run(cap, callers, actions[..i]), b, r);
    } else {
      MetAtOnce(cap, callers, actions, i, b, r);
    }
  }

  lemma AsMet(s: State, b: Batch, r: Ref, met: seq<bool>)
    requires Met(s, b, r, |met|) && AsDecided(s, b) && r < |s.traces| && met <= s.traces[r].decisions
    ensures s.forwarded[b] == if met == [] then Trues(s.traces[r].decisions) else if met[|met| - 1] then 1 else 0
  {
  }

  /** Once everyone is idle: a batch that arrived before any decision was forwarded once for each sampled decision,
      and one that arrived later was forwarded exactly if the latest decision it met was sampled. */
  lemma ForwardedByWhatItMet(cap: nat, callers: nat, actions: seq<Action>, i: nat, b: Batch, r: Ref)
    requires Limits(cap, callers) && CanRun(cap, callers, actions) && Quiescent(Run(cap, callers, actions))
    requires ArrivesAt(cap, callers, actions, i, b, r)
    ensures var s, met := Run(cap, callers, actions), Meets(cap, callers, actions, i, b, r);
            && r < |s.traces| && met <= s.traces[r].decisions
            && s.forwarded[b] == if met == [] then Trues(s.traces[r].decisions) else if met[|met| - 1] then 1 else 0
  {
    MetForGood(cap, callers, actions, i, b, r);
    ForwardedAsDecided(cap, callers, actions, b);
    AsMet(Run(cap, callers, actions), b, r, Meets(cap, callers, actions, i, b, r));
  }
}
