/**
 Lifecycle of traces in the tail sampler (processor/signoztailsampler/processor.go:136-374).
 Any number of callers of processTraces run beside the single ticker. The id table, the bounded delete
 channel, the atomic trace counter and each trace's lock are separate steps.
 */
module TailSampler {

  // ---- one decision ----

  datatype Decision =
    Unspecified | Pending | Sampled | NotSampled | Dropped | Error | InvertSampled | InvertNotSampled | NoResult

  predicate Decisive(d: Decision) {
    d.Sampled? || d.NotSampled?
  }

  /** The first policy with an opinion decides; with none the trace is sampled. verdicts are what the
      evaluators would say, in policy order; recorded is what the loop leaves in Decisions. */
  method MakeDecision(verdicts: seq<Decision>, pending: seq<Decision>)
    returns (final: Decision, policy: nat, recorded: seq<Decision>)
    requires |pending| == |verdicts|
    ensures Decisive(final) && policy <= |verdicts|
    ensures forall i :: 0 <= i < policy ==> !Decisive(verdicts[i])
    ensures final == if policy < |verdicts| then verdicts[policy] else Sampled
    ensures |recorded| == |verdicts|
    ensures forall i :: 0 <= i < |verdicts| ==> recorded[i] == if i <= policy then verdicts[i] else pending[i]
  {
    final := NoResult;
    policy := |verdicts|;
    recorded := pending;
    var i := 0;
    while i < |verdicts| && final == NoResult
      invariant 0 <= i <= |verdicts| && |recorded| == |verdicts|
      invariant forall j :: 0 <= j < |verdicts| ==> recorded[j] == if j < i then verdicts[j] else pending[j]
      invariant final == NoResult ==> policy == |verdicts| && forall j :: 0 <= j < i ==> !Decisive(verdicts[j])
      invariant final != NoResult ==>
                  policy == i - 1 && final == verdicts[policy] && Decisive(final)
                  && forall j :: 0 <= j < policy ==> !Decisive(verdicts[j])
    {
      recorded := recorded[i := verdicts[i]];
      if Decisive(verdicts[i]) {
        final, policy := verdicts[i], i;
      }
      i := i + 1;
    }
    if final == NoResult {
      final := Sampled;
    }
  }

  // ---- the state machine ----

  type Id = nat
  type Ref = nat    // a TraceData object, by position in State.traces
  type Batch = nat  // the spans of one trace in one processTraces call, by position in State.arrivals

  /** decisions is every FinalDecision written, true for sampled; the last one is the current one. */
  datatype Trace = Trace(id: Id, received: seq<Batch>, decisions: seq<bool>, queued: bool)

  datatype Caller =
    | Idle
    | Loading(id: Id, batch: Batch)
    | Storing(id: Id, batch: Batch)
    | Queueing(id: Id, batch: Batch, ref: Ref)
    | Counting(id: Id, batch: Batch, ref: Ref)
    | Posting(id: Id, batch: Batch, ref: Ref)
    | Draining(id: Id, batch: Batch, ref: Ref)
    | Dropping(id: Id, batch: Batch, ref: Ref, victim: Id)
    | Deleting(id: Id, batch: Batch, ref: Ref, victim: Id)
    | Discounting(id: Id, batch: Batch, ref: Ref)
    | Arriving(id: Id, batch: Batch, ref: Ref)
    | Forwarding(id: Id, batch: Batch)

  datatype Ticker = Waiting | Deciding(ref: Ref) | Sending(batches: seq<Batch>)

  /** What became of a batch: still on its way, added to a trace, or late after seen decisions. */
  datatype Arrival =
    | OnItsWay
    | Buffered(ref: Ref)
    | Late(ref: Ref, seen: nat, carrier: nat, sent: bool)

  /** Who holds the delete token of a mapped id. */
  datatype Holder = Admitter(c: nat) | Channel | Dropper(c: nat)

  /** queue is the decision batcher: each id added comes out of one tick. missing counts drops of ids that
      were not on the table. holders, counted and discounting are history. */
  datatype State = State(
    cap: nat,
    table: map<Id, Ref>,
    traces: seq<Trace>,
    count: nat,
    channel: seq<Id>,
    queue: seq<Id>,
    callers: seq<Caller>,
    ticker: Ticker,
    arrivals: seq<Arrival>,
    forwarded: multiset<Batch>,
    missing: nat,
    popped: seq<Id>,
    holders: map<Id, Holder>,
    counted: set<Id>,
    discounting: set<nat>)

  datatype Action =
    | Begin(c: nat, id: Id)
    | Load(c: nat)
    | Store(c: nat)
    | Enqueue(c: nat)
    | CountUp(c: nat)
    | Post(c: nat)
    | SeeFull(c: nat)
    | Drain(c: nat)
    | Find(c: nat)
    | Delete(c: nat)
    | CountDown(c: nat)
    | Arrive(c: nat)
    | ForwardLate(c: nat)
    | TickLoad
    | TickDecide(sampled: bool)
    | TickForward

  const UINT64: nat := 0x1_0000_0000_0000_0000

  function Init(cap: nat, callers: nat): State {
    State(cap, map[], [], 0, [], [], seq(callers, _ => Idle), Waiting, [], multiset{}, 0, [], map[], {}, {})
  }

  predicate IsTick(a: Action) {
    a.TickLoad? || a.TickDecide? || a.TickForward?
  }

  predicate Enabled(s: State, a: Action) {
    if IsTick(a) then
      match a
      case TickLoad => s.ticker.Waiting? && s.queue != []
      case TickDecide(_) => s.ticker.Deciding? && s.ticker.ref < |s.traces|
      case _ => s.ticker.Sending?
    else
      && a.c < |s.callers|
      && var me := s.callers[a.c];
         match a
         case Begin(_, _) => me.Idle?
         case Load(_) => me.Loading?
         case Store(_) => me.Storing?
         case Enqueue(_) => me.Queueing? && me.ref < |s.traces|
         case CountUp(_) => me.Counting?
         case Post(_) => me.Posting? && |s.channel| < s.cap
         case SeeFull(_) => me.Posting? && |s.channel| >= s.cap
         case Drain(_) => me.Draining? && s.channel != []
         case Find(_) => me.Dropping?
         case Delete(_) => me.Deleting?
         case CountDown(_) => me.Discounting?
         case Arrive(_) => me.Arriving? && me.ref < |s.traces| && me.batch < |s.arrivals|
         case ForwardLate(_) => me.Forwarding? && me.batch < |s.arrivals| && s.arrivals[me.batch].Late?
         case _ => true
  }

  function With(s: State, c: nat, me: Caller): State
    requires c < |s.callers|
  {
    s.(callers := s.callers[c := me])
  }

  function Enqueued(s: State, c: nat): State
    requires c < |s.callers| && s.callers[c].Queueing? && s.callers[c].ref < |s.traces|
  {
    var me := s.callers[c];
    With(s, c, Counting(me.id, me.batch, me.ref)).(
      queue := s.queue + [me.id],
      traces := s.traces[me.ref := s.traces[me.ref].(queued := true)])
  }

  function CountedUp(s: State, c: nat): State
    requires c < |s.callers| && s.callers[c].Counting?
  {
    var me := s.callers[c];
    With(s, c, Posting(me.id, me.batch, me.ref)).(count := (s.count + 1) % UINT64, counted := s.counted + {me.id})
  }

  /** Under the trace's lock: an undecided trace takes the batch in, a decided one makes it late. */
  function Arrived(s: State, c: nat): State
    requires c < |s.callers| && s.callers[c].Arriving?
    requires s.callers[c].ref < |s.traces| && s.callers[c].batch < |s.arrivals|
  {
    var me := s.callers[c];
    var tr := s.traces[me.ref];
    var n := |tr.decisions|;
    if n == 0 then
      With(s, c, Idle).(
        traces := s.traces[me.ref := tr.(received := tr.received + [me.batch])],
        arrivals := s.arrivals[me.batch := Buffered(me.ref)])
    else
      With(s, c, if tr.decisions[n - 1] then Forwarding(me.id, me.batch) else Idle).(
        arrivals := s.arrivals[me.batch := Late(me.ref, n, c, false)])
  }

  function Next(s: State, a: Action): State
    requires Enabled(s, a)
  {
    match a
    case Begin(c, id) =>
      With(s, c, Loading(id, |s.arrivals|)).(arrivals := s.arrivals + [OnItsWay])
    case Load(c) =>
      var me := s.callers[c];
      With(s, c, if me.id in s.table then Arriving(me.id, me.batch, s.table[me.id]) else Storing(me.id, me.batch))
    case Store(c) =>
      var me := s.callers[c];
      if me.id in s.table then With(s, c, Arriving(me.id, me.batch, s.table[me.id]))
      else
        With(s, c, Queueing(me.id, me.batch, |s.traces|)).(
          table := s.table[me.id := |s.traces|],
          traces := s.traces + [Trace(me.id, [], [], false)],
          holders := s.holders[me.id := Admitter(c)])
    case Enqueue(c) => Enqueued(s, c)
    case CountUp(c) => CountedUp(s, c)
    case Post(c) =>
      var me := s.callers[c];
      With(s, c, Arriving(me.id, me.batch, me.ref)).(
        channel := s.channel + [me.id], holders := s.holders[me.id := Channel])
    case SeeFull(c) =>
      var me := s.callers[c];
      With(s, c, Draining(me.id, me.batch, me.ref))
    case Drain(c) =>
      var me := s.callers[c];
      With(s, c, Dropping(me.id, me.batch, me.ref, s.channel[0])).(
        channel := s.channel[1..], holders := s.holders[s.channel[0] := Dropper(c)])
    case Find(c) =>
      var me := s.callers[c];
      if me.victim in s.table then With(s, c, Deleting(me.id, me.batch, me.ref, me.victim))
      else With(s, c, Posting(me.id, me.batch, me.ref)).(missing := s.missing + 1)
    case Delete(c) =>
      var me := s.callers[c];
      With(s, c, Discounting(me.id, me.batch, me.ref)).(
        table := s.table - {me.victim}, holders := s.holders - {me.victim},
        counted := s.counted - {me.victim}, discounting := s.discounting + {c})
    case CountDown(c) =>
      var me := s.callers[c];
      With(s, c, Posting(me.id, me.batch, me.ref)).(
        count := (s.count + UINT64 - 1) % UINT64, discounting := s.discounting - {c})
    case Arrive(c) => Arrived(s, c)
    case ForwardLate(c) =>
      var me := s.callers[c];
      With(s, c, Idle).(
        forwarded := s.forwarded + multiset{me.batch},
        arrivals := s.arrivals[me.batch := s.arrivals[me.batch].(sent := true)])
    case TickLoad =>
      var id := s.queue[0];
      s.(queue := s.queue[1..],
         popped := s.popped + [id],
         ticker := if id in s.table then Deciding(s.table[id]) else Waiting)
    case TickDecide(sampled) =>
      var tr := s.traces[s.ticker.ref];
      s.(traces := s.traces[s.ticker.ref := tr.(decisions := tr.decisions + [sampled])],
         ticker := if sampled then Sending(tr.received) else Waiting)
    case TickForward =>
      s.(forwarded := s.forwarded + multiset(s.ticker.batches), ticker := Waiting)
  }

  // ---- delivery ----

  function Trues(decisions: seq<bool>): nat {
    if decisions == [] then 0
    else Trues(decisions[..|decisions| - 1]) + (if decisions[|decisions| - 1] then 1 else 0)
  }

  /** How often a batch is to be forwarded, given every decision its trace got. */
  function Due(s: State, b: Batch): nat
    requires b < |s.arrivals|
  {
    match s.arrivals[b]
    case OnItsWay => 0
    case Buffered(r) => if r < |s.traces| then Trues(s.traces[r].decisions) else 0
    case Late(r, seen, carrier, sent) => if sent then 1 else 0
  }

  function InTick(s: State): multiset<Batch> {
    if s.ticker.Sending? then multiset(s.ticker.batches) else multiset{}
  }

  ghost predicate TraceOk(s: State, r: Ref)
    requires r < |s.traces|
  {
    forall b: Batch :: multiset(s.traces[r].received)[b]
                       == if b < |s.arrivals| && s.arrivals[b] == Buffered(r) then 1 else 0
  }

  ghost predicate ArrivalOk(s: State, b: Batch)
    requires b < |s.arrivals|
  {
    match s.arrivals[b]
    case OnItsWay => true
    case Buffered(r) => r < |s.traces|
    case Late(r, seen, carrier, sent) =>
      && r < |s.traces| && 1 <= seen <= |s.traces[r].decisions|
      && (sent ==> s.traces[r].decisions[seen - 1])
      && (!sent && s.traces[r].decisions[seen - 1] ==>
            carrier < |s.callers| && s.callers[carrier].Forwarding? && s.callers[carrier].batch == b)
  }

  ghost predicate CallerBatchOk(s: State, c: nat)
    requires c < |s.callers|
  {
    var me := s.callers[c];
    !me.Idle? ==>
      && me.batch < |s.arrivals|
      && (me.Forwarding? ==>
            && s.arrivals[me.batch].Late? && s.arrivals[me.batch].carrier == c && !s.arrivals[me.batch].sent
            && s.arrivals[me.batch].ref < |s.traces|
            && 1 <= s.arrivals[me.batch].seen <= |s.traces[s.arrivals[me.batch].ref].decisions|
            && s.traces[s.arrivals[me.batch].ref].decisions[s.arrivals[me.batch].seen - 1])
      && (!me.Forwarding? ==> s.arrivals[me.batch].OnItsWay?)
  }

  /** No two callers carry the same batch, and every reference is to a trace. */
  ghost predicate CallersApart(s: State) {
    && (forall c, d :: 0 <= c < d < |s.callers| && !s.callers[c].Idle? && !s.callers[d].Idle?
                       ==> s.callers[c].batch != s.callers[d].batch)
  }

  ghost predicate Delivery(s: State) {
    && (forall r: Ref :: r < |s.traces| ==> TraceOk(s, r))
    && (forall b: Batch :: b < |s.arrivals| ==> ArrivalOk(s, b))
    && (forall c: nat :: c < |s.callers| ==> CallerBatchOk(s, c))
    && CallersApart(s)
    && Balanced(s)
  }

  /** Forwarded so far plus in the ticker's hand is what is due. */
  ghost predicate Balanced(s: State) {
    forall b: Batch :: s.forwarded[b] + InTick(s)[b] == if b < |s.arrivals| then Due(s, b) else 0
  }

  /** Steps that leave the spans alone: only the caller's place in processTraces changes. */
  lemma QuietDelivery(s: State, t: State, c: nat, me: Caller)
    requires Delivery(s) && c < |s.callers| && t.callers == s.callers[c := me]
    requires t.traces == s.traces && t.arrivals == s.arrivals && t.forwarded == s.forwarded && t.ticker == s.ticker
    requires !me.Idle? && !me.Forwarding? && !s.callers[c].Idle? && !s.callers[c].Forwarding?
    requires me.batch == s.callers[c].batch
    ensures Delivery(t)
  {
    assert forall r: Ref :: r < |s.traces| ==> TraceOk(s, r);
    forall r: Ref | r < |t.traces| ensures TraceOk(t, r) {
      assert TraceOk(s, r);
    }
    forall b: Batch | b < |t.arrivals| ensures ArrivalOk(t, b) {
      assert ArrivalOk(s, b);
    }
    forall d: nat | d < |t.callers| ensures CallerBatchOk(t, d) {
      assert CallerBatchOk(s, d);
    }
  }

  lemma BeginDelivery(s: State, c: nat, id: Id)
    requires Delivery(s) && Enabled(s, Begin(c, id))
    ensures Delivery(Next(s, Begin(c, id)))
  {
    var t := Next(s, Begin(c, id));
    forall r: Ref | r < |t.traces| ensures TraceOk(t, r) {
      assert TraceOk(s, r);
    }
    forall b: Batch | b < |t.arrivals| ensures ArrivalOk(t, b) {
      if b < |s.arrivals| { assert ArrivalOk(s, b); }
    }
    forall d: nat | d < |t.callers| ensures CallerBatchOk(t, d) {
      assert CallerBatchOk(s, d);
    }
    forall d: nat, e: nat | d < e < |t.callers| && !t.callers[d].Idle? && !t.callers[e].Idle?
      ensures t.callers[d].batch != t.callers[e].batch
    {
      assert CallerBatchOk(s, d) && CallerBatchOk(s, e);
    }
    assert Balanced(t) by {
      assert Balanced(s);
    }
  }

  /** The traces are the same but for new, empty ones and the batcher's mark. */
  lemma SameSpansDelivery(s: State, t: State)
    requires Delivery(s) && t.callers == s.callers && t.arrivals == s.arrivals && t.forwarded == s.forwarded
             && t.ticker == s.ticker
    requires |s.traces| <= |t.traces|
    requires forall r: Ref :: r < |s.traces| ==>
               t.traces[r].received == s.traces[r].received && t.traces[r].decisions == s.traces[r].decisions
    requires forall r: Ref :: |s.traces| <= r < |t.traces| ==> t.traces[r].received == []
    ensures Delivery(t)
  {
    forall r: Ref | r < |t.traces| ensures TraceOk(t, r) {
      if r < |s.traces| {
        assert TraceOk(s, r);
      } else {
        forall b: Batch ensures multiset(t.traces[r].received)[b]
                                == if b < |t.arrivals| && t.arrivals[b] == Buffered(r) then 1 else 0 {
          if b < |s.arrivals| { assert ArrivalOk(s, b); }
        }
      }
    }
    forall b: Batch | b < |t.arrivals| ensures ArrivalOk(t, b) {
      assert ArrivalOk(s, b);
    }
    forall d: nat | d < |t.callers| ensures CallerBatchOk(t, d) {
      assert CallerBatchOk(s, d);
    }
    forall b: Batch ensures t.forwarded[b] + InTick(t)[b] == if b < |t.arrivals| then Due(t, b) else 0 {
      assert s.forwarded[b] + InTick(s)[b] == if b < |s.arrivals| then Due(s, b) else 0;
      if b < |s.arrivals| { assert ArrivalOk(s, b); }
    }
  }

  lemma BufferTraceOk(s: State, t: State, batch: Batch, ref: Ref, r: Ref)
    requires ref < |s.traces| && r < |s.traces| && TraceOk(s, r)
    requires batch < |s.arrivals| && s.arrivals[batch].OnItsWay? && t.arrivals == s.arrivals[batch := Buffered(ref)]
    requires t.traces == s.traces[ref := s.traces[ref].(received := s.traces[ref].received + [batch])]
    ensures TraceOk(t, r)
  {
  }

  lemma BufferBalanced(s: State, t: State, batch: Batch, ref: Ref)
    requires Balanced(s) && ref < |s.traces| && s.traces[ref].decisions == []
    requires batch < |s.arrivals| && s.arrivals[batch].OnItsWay? && t.arrivals == s.arrivals[batch := Buffered(ref)]
    requires t.traces == s.traces[ref := s.traces[ref].(received := s.traces[ref].received + [batch])]
    requires t.forwarded == s.forwarded && t.ticker == s.ticker
    ensures Balanced(t)
  {
  }

  /** Under the trace's lock, an undecided trace takes the batch in. */
  lemma BufferDelivery(s: State, c: nat, ref: Ref)
    requires Delivery(s) && c < |s.callers| && s.callers[c].Arriving? && s.callers[c].batch < |s.arrivals|
    requires ref < |s.traces| && s.traces[ref].decisions == []
    ensures var batch := s.callers[c].batch;
            Delivery(s.(callers := s.callers[c := Idle],
                        traces := s.traces[ref := s.traces[ref].(received := s.traces[ref].received + [batch])],
                        arrivals := s.arrivals[batch := Buffered(ref)]))
  {
    var batch := s.callers[c].batch;
    var t := s.(callers := s.callers[c := Idle],
                traces := s.traces[ref := s.traces[ref].(received := s.traces[ref].received + [batch])],
                arrivals := s.arrivals[batch := Buffered(ref)]);
    assert CallerBatchOk(s, c);
    forall r: Ref | r < |t.traces| ensures TraceOk(t, r) {
      BufferTraceOk(s, t, batch, ref, r);
    }
    forall b: Batch | b < |t.arrivals| ensures ArrivalOk(t, b) {
      assert ArrivalOk(s, b);
    }
    forall d: nat | d < |t.callers| ensures CallerBatchOk(t, d) {
      assert CallerBatchOk(s, d);
    }
    BufferBalanced(s, t, batch, ref);
  }

  lemma LateDelivery(s: State, c: nat)
    requires Delivery(s) && c < |s.callers| && s.callers[c].Arriving?
    requires s.callers[c].ref < |s.traces| && s.callers[c].batch < |s.arrivals|
    requires s.traces[s.callers[c].ref].decisions != []
    ensures Delivery(Arrived(s, c))
  {
    var me := s.callers[c];
    LateArrivalDelivery(s, c, Late(me.ref, |s.traces[me.ref].decisions|, c, false), Arrived(s, c).callers[c]);
  }

  /** A late batch is on nobody's list: traces and dues stay as they were. */
  lemma LateTraces(s: State, t: State, batch: Batch, late: Arrival)
    requires batch < |s.arrivals| && s.arrivals[batch].OnItsWay? && late.Late? && !late.sent
    requires t.arrivals == s.arrivals[batch := late] && t.traces == s.traces
    requires t.forwarded == s.forwarded && t.ticker == s.ticker
    requires Balanced(s) && forall r: Ref :: r < |s.traces| ==> TraceOk(s, r)
    ensures Balanced(t) && forall r: Ref :: r < |t.traces| ==> TraceOk(t, r)
  {
    forall r: Ref | r < |t.traces| ensures TraceOk(t, r) {
      assert TraceOk(s, r);
    }
  }

  lemma LateArrivals(s: State, t: State, c: nat, late: Arrival, me: Caller)
    requires c < |s.callers| && s.callers[c].Arriving? && s.callers[c].batch < |s.arrivals|
    requires late.Late? && late.ref < |s.traces| && 1 <= late.seen <= |s.traces[late.ref].decisions|
    requires late.carrier == c && !late.sent
    requires me == if s.traces[late.ref].decisions[late.seen - 1]
                   then Forwarding(s.callers[c].id, s.callers[c].batch) else Idle
    requires t == s.(callers := s.callers[c := me], arrivals := s.arrivals[s.callers[c].batch := late])
    requires forall b: Batch :: b < |s.arrivals| ==> ArrivalOk(s, b)
    ensures forall b: Batch :: b < |t.arrivals| ==> ArrivalOk(t, b)
  {
    forall b: Batch | b < |t.arrivals| ensures ArrivalOk(t, b) {
      assert ArrivalOk(s, b);
    }
  }

  lemma LateCallers(s: State, t: State, c: nat, late: Arrival, me: Caller)
    requires c < |s.callers| && s.callers[c].Arriving? && s.callers[c].batch < |s.arrivals|
    requires late.Late? && late.ref < |s.traces| && 1 <= late.seen <= |s.traces[late.ref].decisions|
    requires late.carrier == c && !late.sent
    requires me == if s.traces[late.ref].decisions[late.seen - 1]
                   then Forwarding(s.callers[c].id, s.callers[c].batch) else Idle
    requires t == s.(callers := s.callers[c := me], arrivals := s.arrivals[s.callers[c].batch := late])
    requires CallersApart(s) && forall d: nat :: d < |s.callers| ==> CallerBatchOk(s, d)
    ensures CallersApart(t) && forall d: nat :: d < |t.callers| ==> CallerBatchOk(t, d)
  {
    forall d: nat | d < |t.callers| ensures CallerBatchOk(t, d) {
      assert CallerBatchOk(s, d);
    }
  }

  lemma LateArrivalDelivery(s: State, c: nat, late: Arrival, me: Caller)
    requires Delivery(s) && c < |s.callers| && s.callers[c].Arriving? && s.callers[c].batch < |s.arrivals|
    requires late.Late? && late.ref < |s.traces| && 1 <= late.seen <= |s.traces[late.ref].decisions|
    requires late.carrier == c && !late.sent
    requires me == if s.traces[late.ref].decisions[late.seen - 1]
                   then Forwarding(s.callers[c].id, s.callers[c].batch) else Idle
    ensures Delivery(s.(callers := s.callers[c := me], arrivals := s.arrivals[s.callers[c].batch := late]))
  {
    var t := s.(callers := s.callers[c := me], arrivals := s.arrivals[s.callers[c].batch := late]);
    assert CallerBatchOk(s, c);
    LateTraces(s, t, s.callers[c].batch, late);
    LateArrivals(s, t, c, late, me);
    LateCallers(s, t, c, late, me);
  }

  lemma ForwardLateBalanced(s: State, batch: Batch, t: State)
    requires Balanced(s) && batch < |s.arrivals| && s.arrivals[batch].Late? && !s.arrivals[batch].sent
    requires t.traces == s.traces && t.ticker == s.ticker && t.forwarded == s.forwarded + multiset{batch}
    requires t.arrivals == s.arrivals[batch := s.arrivals[batch].(sent := true)]
    ensures Balanced(t)
  {
  }

  lemma DecideBalanced(s: State, sampled: bool, t: State)
    requires Balanced(s) && s.ticker.Deciding? && s.ticker.ref < |s.traces| && TraceOk(s, s.ticker.ref)
    requires t.arrivals == s.arrivals && t.forwarded == s.forwarded
    requires var tr := s.traces[s.ticker.ref];
             && t.traces == s.traces[s.ticker.ref := tr.(decisions := tr.decisions + [sampled])]
             && t.ticker == if sampled then Sending(tr.received) else Waiting
    ensures Balanced(t)
  {
    var decisions := s.traces[s.ticker.ref].decisions;
    assert t.traces[s.ticker.ref].decisions[..|decisions|] == decisions;
  }

  lemma ForwardLateDelivery(s: State, c: nat)
    requires Delivery(s) && Enabled(s, ForwardLate(c))
    ensures var batch := s.callers[c].batch;
            Delivery(s.(callers := s.callers[c := Idle],
                        forwarded := s.forwarded + multiset{batch},
                        arrivals := s.arrivals[batch := s.arrivals[batch].(sent := true)]))
  {
    var batch := s.callers[c].batch;
    var t := s.(callers := s.callers[c := Idle],
                forwarded := s.forwarded + multiset{batch},
                arrivals := s.arrivals[batch := s.arrivals[batch].(sent := true)]);
    assert CallerBatchOk(s, c);
    forall r: Ref | r < |t.traces| ensures TraceOk(t, r) {
      assert TraceOk(s, r);
    }
    forall b: Batch | b < |t.arrivals| ensures ArrivalOk(t, b) {
      assert ArrivalOk(s, b);
    }
    forall d: nat | d < |t.callers| ensures CallerBatchOk(t, d) {
      assert CallerBatchOk(s, d);
    }
    ForwardLateBalanced(s, batch, t);
  }

  /** The decision and the copy of the buffered batches happen under the trace's lock; each buffered
      batch becomes due once more exactly when the trace is sampled. */
  lemma DecideDelivery(s: State, sampled: bool)
    requires Delivery(s) && Enabled(s, TickDecide(sampled))
    ensures Delivery(Next(s, TickDecide(sampled)))
  {
    var t := Next(s, TickDecide(sampled));
    var ref := s.ticker.ref;
    var decisions := s.traces[ref].decisions;
    assert forall r: Ref :: r < |s.traces| && r != ref ==> t.traces[r] == s.traces[r];
    forall r: Ref | r < |t.traces| ensures TraceOk(t, r) {
      assert TraceOk(s, r);
    }
    forall b: Batch | b < |t.arrivals| ensures ArrivalOk(t, b) {
      assert ArrivalOk(s, b);
    }
    forall d: nat | d < |t.callers| ensures CallerBatchOk(t, d) {
      assert CallerBatchOk(s, d);
    }
    assert TraceOk(s, ref);
    DecideBalanced(s, sampled, t);
  }

  /** The batches forwarded and the ticker's together stay the same. */
  lemma TickerDelivery(s: State, t: State)
    requires Delivery(s) && t.traces == s.traces && t.arrivals == s.arrivals && t.callers == s.callers
    requires t.forwarded + InTick(t) == s.forwarded + InTick(s)
    ensures Delivery(t)
  {
    forall r: Ref | r < |t.traces| ensures TraceOk(t, r) {
      assert TraceOk(s, r);
    }
    forall b: Batch | b < |t.arrivals| ensures ArrivalOk(t, b) {
      assert ArrivalOk(s, b);
    }
    forall d: nat | d < |t.callers| ensures CallerBatchOk(t, d) {
      assert CallerBatchOk(s, d);
    }
    forall b: Batch ensures t.forwarded[b] + InTick(t)[b] == if b < |t.arrivals| then Due(t, b) else 0 {
      assert (t.forwarded + InTick(t))[b] == (s.forwarded + InTick(s))[b];
    }
  }

  lemma DeliveryStep(s: State, a: Action)
    requires Delivery(s) && Enabled(s, a)
    ensures Delivery(Next(s, a))
  {
    match a {
      case Begin(c, id) => BeginDelivery(s, c, id);
      case Store(c) => AdmissionDelivery(s, a);
      case Enqueue(c) => AdmissionDelivery(s, a);
      case Arrive(c) =>
        if s.traces[s.callers[c].ref].decisions == [] {
          BufferDelivery(s, c, s.callers[c].ref);
        } else {
          LateDelivery(s, c);
        }
      case ForwardLate(c) => ForwardLateDelivery(s, c);
      case TickDecide(sampled) => DecideDelivery(s, sampled);
      case TickLoad => TickerDelivery(s, Next(s, a));
      case TickForward => TickerDelivery(s, Next(s, a));
      case _ => StageDelivery(s, a);
    }
  }

  /** The stages of admission that leave the spans alone. */
  lemma StageDelivery(s: State, a: Action)
    requires Delivery(s) && Enabled(s, a)
    requires a.Load? || a.CountUp? || a.Post? || a.SeeFull? || a.Drain? || a.Find? || a.Delete? || a.CountDown?
    ensures Delivery(Next(s, a))
  {
    QuietDelivery(s, Next(s, a), a.c, Next(s, a).callers[a.c]);
  }

  lemma AdmissionDelivery(s: State, a: Action)
    requires Delivery(s) && Enabled(s, a) && (a.Store? || a.Enqueue?)
    ensures Delivery(Next(s, a))
  {
    var t := Next(s, a);
    QuietDelivery(s, s.(callers := t.callers), a.c, t.callers[a.c]);
    SameSpansDelivery(s.(callers := t.callers), t);
  }
}
