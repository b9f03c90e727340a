/**
 Progress of the tail sampler (processor/signoztailsampler/processor.go:143-164, 282-338): the loop that posts
 an id on the full delete channel does not spin. Every step but the beginning of a call uses up work, so every
 run is bounded by the calls begun in it.
 */
module TailSamplerProgress {
  import opened Sums
  import opened TailSampler
  import opened TailSamplerTokens

  const CALL: nat := 18
  const TOKEN: nat := 5
  const QUEUED: nat := 3

  function Left(me: Caller): nat {
    match me
    case Loading(_, _) => CALL
    case Storing(_, _) => 17
    case Queueing(_, _, _) => 16
    case Counting(_, _, _) => 12
    case Dropping(_, _, _, _) => 11
    case Deleting(_, _, _, _) => 10
    case Discounting(_, _, _) => 9
    case Posting(_, _, _) => 8
    case Draining(_, _, _) => 7
    case Arriving(_, _, _) => 2
    case Forwarding(_, _) => 1
    case Idle => 0
  }

  function TickLeft(ticker: Ticker): nat {
    match ticker
    case Deciding(_) => 2
    case Sending(_) => 1
    case Waiting => 0
  }

  /** What the callers have left to do, the tokens in the channel that may have to be drained, and the ids
      still to be decided. */
  function Effort(s: State): nat {
    Sum(Left, s.callers) + TOKEN * |s.channel| + QUEUED * |s.queue| + TickLeft(s.ticker)
  }

  lemma CallerMoves(s: State, t: State, c: nat)
    requires c < |s.callers| == |t.callers| && t.callers == s.callers[c := t.callers[c]]
    ensures Sum(Left, t.callers) + Left(s.callers[c]) == Sum(Left, s.callers) + Left(t.callers[c])
  {
    SumUpdate(Left, s.callers, c, t.callers[c]);
  }

  /** Steps that move the caller's stage and nothing that is counted. */
  lemma StageEffort(s: State, a: Action)
    requires Enabled(s, a)
    requires a.Load? || a.Store? || a.CountUp? || a.SeeFull? || a.Find? || a.Delete? || a.CountDown?
    ensures Effort(Next(s, a)) < Effort(s)
  {
    CallerMoves(s, Next(s, a), a.c);
  }

  lemma ArriveEffort(s: State, c: nat)
    requires c < |s.callers| && s.callers[c].Arriving?
    requires s.callers[c].ref < |s.traces| && s.callers[c].batch < |s.arrivals|
    ensures Effort(Arrived(s, c)) < Effort(s)
  {
    CallerMoves(s, Arrived(s, c), c);
  }

  lemma ForwardEffort(s: State, c: nat)
    requires Enabled(s, ForwardLate(c))
    ensures Effort(Next(s, ForwardLate(c))) < Effort(s)
  {
    CallerMoves(s, Next(s, ForwardLate(c)), c);
  }

  /** A posted token is paid for by the call that posts it, a drained one pays for its own removal. */
  lemma TokenEffort(s: State, a: Action)
    requires Enabled(s, a) && (a.Post? || a.Drain?)
    ensures Effort(Next(s, a)) < Effort(s)
  {
    CallerMoves(s, Next(s, a), a.c);
  }

  lemma EnqueueEffort(s: State, c: nat)
    requires c < |s.callers| && s.callers[c].Queueing? && s.callers[c].ref < |s.traces|
    ensures Effort(Enqueued(s, c)) < Effort(s)
  {
    CallerMoves(s, Enqueued(s, c), c);
  }

  lemma TickEffort(s: State, a: Action)
    requires Enabled(s, a) && IsTick(a)
    ensures Effort(Next(s, a)) < Effort(s)
  {
    assert Next(s, a).callers == s.callers && Next(s, a).channel == s.channel;
  }

  lemma BeginEffort(s: State, c: nat, id: Id)
    requires Enabled(s, Begin(c, id))
    ensures Effort(Next(s, Begin(c, id))) == Effort(s) + CALL
  {
    CallerMoves(s, Next(s, Begin(c, id)), c);
  }

  /** Only a new call adds work; every other step of a caller or of the ticker uses some up. */
  lemma EffortStep(s: State, a: Action)
    requires Enabled(s, a)
    ensures if a.Begin? then Effort(Next(s, a)) == Effort(s) + CALL else Effort(Next(s, a)) < Effort(s)
  {
    if IsTick(a) {
      TickEffort(s, a);
    } else {
      match a {
        case Begin(c, id) => BeginEffort(s, c, id);
        case Enqueue(c) => EnqueueEffort(s, c);
        case Post(_) => TokenEffort(s, a);
        case Drain(_) => TokenEffort(s, a);
        case Arrive(c) => ArriveEffort(s, c);
        case ForwardLate(c) => ForwardEffort(s, c);
        case _ => StageEffort(s, a);
      }
    }
  }

  function Calls(actions: seq<Action>): nat {
    if actions == [] then 0
    else Calls(actions[..|actions| - 1]) + if actions[|actions| - 1].Begin? then 1 else 0
  }

  lemma {:induction false} NobodyHasWork(callers: nat)
    ensures Sum(Left, seq(callers, _ => Idle)) == 0
  {
    if callers > 0 {
      NobodyHasWork(callers - 1);
      assert seq(callers, _ => Idle)[..callers - 1] == seq(callers - 1, _ => Idle);
    }
  }

  lemma {:induction false} RunUsesUpItsCalls(cap: nat, callers: nat, actions: seq<Action>)
    requires CanRun(cap, callers, actions)
    ensures |actions| + Effort(Run(cap, callers, actions)) <= (CALL + 1) * Calls(actions)
  {
    if actions == [] {
      NobodyHasWork(callers);
    } else {
      var n := |actions| - 1;
      RunUsesUpItsCalls(cap, callers, actions[..n]);
      EffortStep(Run(cap, callers, actions[..n]), actions[n]);
    }
  }

  /** However calls and ticks interleave, no run takes more than nineteen steps for each call begun in it, so
      without new calls every call of processTraces returns and every queued id is decided or skipped. */
  lemma RunLength(cap: nat, callers: nat, actions: seq<Action>)
    requires CanRun(cap, callers, actions)
    ensures |actions| <= 19 * Calls(actions)
  {
    RunUsesUpItsCalls(cap, callers, actions);
  }

  /** Neither a caller nor the ticker can step, new calls apart. */
  ghost predicate Stuck(s: State) {
    forall a: Action :: !a.Begin? ==> !Enabled(s, a)
  }

  /** A run that no caller and no tick can continue has returned from every call and emptied the queue. */
  lemma FinishedRunIsQuiescent(cap: nat, callers: nat, actions: seq<Action>)
    requires Limits(cap, callers) && CanRun(cap, callers, actions)
    requires Stuck(Run(cap, callers, actions))
    ensures Quiescent(Run(cap, callers, actions)) && Run(cap, callers, actions).queue == []
  {
    RunKeepsInv(cap, callers, actions);
    StuckIsQuiescent(Run(cap, callers, actions));
  }

  lemma StuckIsQuiescent(s: State)
    requires s.cap >= 1 && Fed(s) && Refs(s) && Delivery(s) && Stuck(s)
    ensures Quiescent(s) && s.queue == []
  {
    assert !Enabled(s, TickDecide(true)) && !Enabled(s, TickForward) && !Enabled(s, TickLoad);
    forall c: nat | c < |s.callers| ensures s.callers[c].Idle? {
      if !s.callers[c].Idle? {
        SomeCallerCanStep(s, c);
        assert false;
      }
    }
  }
}
