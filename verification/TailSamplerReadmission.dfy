/**
 A trace dropped from the table before its tick and admitted again is decided by both ticks of its id
 (processor/signoztailsampler/processor.go:143-164, 282-308), here as a run with one caller and NumTraces 1.
 */
module TailSamplerReadmission {
  import opened TailSampler
  import opened TailSamplerTokens

  /** The state after a run of one caller with room for one trace. */
  ghost predicate After(actions: seq<Action>, s: State) {
    CanRun(1, 1, actions) && Run(1, 1, actions) == s
  }

  lemma Take(actions: seq<Action>, s: State, a: Action) returns (longer: seq<Action>, t: State)
    requires After(actions, s) && Enabled(s, a)
    ensures After(longer, t) && t == Next(s, a)
  {
    longer, t := actions + [a], Next(s, a);
    assert longer[..|actions|] == actions;
  }

  /** Nobody is in a call and no tick is under way. */
  predicate Still(s: State) {
    s.cap == 1 && s.callers == [Idle] && s.ticker == Waiting
  }

  lemma Stored(actions: seq<Action>, s: State, id: Id) returns (longer: seq<Action>, t: State)
    requires After(actions, s) && Still(s) && id !in s.table
    ensures After(longer, t)
    ensures t.callers == [Queueing(id, |s.arrivals|, |s.traces|)]
    ensures t == s.(callers := t.callers, table := s.table[id := |s.traces|], holders := t.holders,
                    traces := s.traces + [Trace(id, [], [], false)], arrivals := s.arrivals + [OnItsWay])
  {
    longer, t := Take(actions, s, Begin(0, id));
    longer, t := Take(longer, t, Load(0));
    longer, t := Take(longer, t, Store(0));
  }

  /** A batch of a new id arrives: the trace is stored and queued, its token about to be posted. */
  lemma Admit(actions: seq<Action>, s: State, id: Id) returns (longer: seq<Action>, t: State)
    requires After(actions, s) && Still(s) && id !in s.table
    ensures After(longer, t)
    ensures t.cap == 1 && t.ticker == Waiting && t.callers == [Posting(id, |s.arrivals|, |s.traces|)]
    ensures t.table == s.table[id := |s.traces|] && t.traces == s.traces + [Trace(id, [], [], true)]
    ensures t.queue == s.queue + [id] && t.channel == s.channel
    ensures t.arrivals == s.arrivals + [OnItsWay] && t.forwarded == s.forwarded
  {
    longer, t := Stored(actions, s, id);
    longer, t := Take(longer, t, Enqueue(0));
    longer, t := Take(longer, t, CountUp(0));
  }

  lemma TakeVictim(actions: seq<Action>, s: State, victim: Id) returns (longer: seq<Action>, t: State)
    requires After(actions, s) && |s.callers| == 1 && s.callers[0].Posting?
    requires s.cap == 1 && s.channel == [victim] && victim in s.table
    ensures After(longer, t)
    ensures var me := s.callers[0]; t.callers == [Deleting(me.id, me.batch, me.ref, victim)]
    ensures t == s.(callers := t.callers, channel := [], holders := t.holders)
  {
    longer, t := Take(actions, s, SeeFull(0));
    longer, t := Take(longer, t, Drain(0));
    longer, t := Take(longer, t, Find(0));
  }

  /** The delete channel is full: its trace is dropped, whether it was decided or not. */
  lemma MakeRoom(actions: seq<Action>, s: State, victim: Id) returns (longer: seq<Action>, t: State)
    requires After(actions, s) && |s.callers| == 1 && s.callers[0].Posting?
    requires s.cap == 1 && s.channel == [victim] && victim in s.table
    ensures After(longer, t)
    ensures t.cap == 1 && t.ticker == s.ticker && t.callers == s.callers && t.channel == []
    ensures t.table == s.table - {victim} && t.traces == s.traces && t.queue == s.queue
    ensures t.arrivals == s.arrivals && t.forwarded == s.forwarded
  {
    longer, t := TakeVictim(actions, s, victim);
    longer, t := Take(longer, t, Delete(0));
    longer, t := Take(longer, t, CountDown(0));
  }

  /** The token is posted and the batch added to its trace. */
  lemma Arrives(actions: seq<Action>, s: State) returns (longer: seq<Action>, t: State)
    requires After(actions, s) && s.cap == 1 && s.ticker == Waiting && |s.callers| == 1 && s.callers[0].Posting?
             && s.channel == []
    requires s.callers[0].ref < |s.traces| && s.traces[s.callers[0].ref].decisions == []
             && s.callers[0].batch < |s.arrivals|
    ensures After(longer, t) && Still(t)
    ensures var me := s.callers[0];
            && t.table == s.table && t.channel == [me.id] && t.queue == s.queue && t.forwarded == s.forwarded
            && t.traces == s.traces[me.ref := s.traces[me.ref].(received := s.traces[me.ref].received + [me.batch])]
            && |t.arrivals| == |s.arrivals|
  {
    longer, t := Take(actions, s, Post(0));
    longer, t := Take(longer, t, Arrive(0));
  }

  /** The next id of the queue is on the table and its trace is sampled. */
  lemma Sample(actions: seq<Action>, s: State, r: Ref) returns (longer: seq<Action>, t: State)
    requires After(actions, s) && Still(s) && s.queue != [] && s.queue[0] in s.table
             && s.table[s.queue[0]] == r < |s.traces|
    ensures After(longer, t) && Still(t) && t.table == s.table && t.queue == s.queue[1..]
    ensures t.traces == s.traces[r := s.traces[r].(decisions := s.traces[r].decisions + [true])]
    ensures t.forwarded == s.forwarded + multiset(s.traces[r].received)
  {
    longer, t := Take(actions, s, TickLoad);
    longer, t := Take(longer, t, TickDecide(true));
    longer, t := Take(longer, t, TickForward);
  }

  /** A new id pushes the only other one off the table. */
  lemma Replace(actions: seq<Action>, s: State, id: Id, victim: Id) returns (longer: seq<Action>, t: State)
    requires After(actions, s) && Still(s) && id !in s.table && s.channel == [victim] && victim in s.table
    ensures After(longer, t) && Still(t) && t.channel == [id]
    ensures t.table == s.table[id := |s.traces|] - {victim} && t.queue == s.queue + [id] && t.forwarded == s.forwarded
    ensures |t.traces| == |s.traces| + 1 && t.traces[|s.traces|] == Trace(id, [|s.arrivals|], [], true)
    ensures |t.arrivals| == |s.arrivals| + 1
  {
    longer, t := Admit(actions, s, id);
    longer, t := MakeRoom(longer, t, victim);
    longer, t := Arrives(longer, t);
    var b: Batch := |s.arrivals|;
    assert [] + [b] == [b];
  }

  lemma FirstIn(id: Id) returns (actions: seq<Action>, s: State)
    ensures After(actions, s) && Still(s) && s.channel == [id] && s.table == map[id := 0] && s.queue == [id]
    ensures s.forwarded == multiset{} && |s.traces| == 1 == |s.arrivals|
  {
    assert Init(1, 1).callers == [Idle];
    actions, s := Admit([], Init(1, 1), id);
    actions, s := Arrives(actions, s);
  }

  /** Ids 7, 8 and 7 again arrive before any tick: each pushes the one before it off the table. */
  lemma Readmitted() returns (actions: seq<Action>, s: State)
    ensures After(actions, s) && Still(s) && s.queue == [7, 8, 7] && s.forwarded == multiset{}
    ensures 8 !in s.table && 7 in s.table && s.table[7] == 2 && |s.traces| == 3
            && s.traces[2] == Trace(7, [2], [], true)
  {
    actions, s := FirstIn(7);
    actions, s := Replace(actions, s, 8, 7);
    actions, s := Replace(actions, s, 7, 8);
  }

  /** The ticks for the first and the second admission of id 7 both decide its second trace, so a batch that
      was received once is forwarded twice. */
  lemma ReadmittedBatchIsForwardedTwice()
    ensures exists actions, s :: After(actions, s) && Still(s) && s.forwarded[2] == 2
  {
    var actions, s := Readmitted();
    actions, s := Sample(actions, s, 2);
    actions, s := Take(actions, s, TickLoad);
    actions, s := Sample(actions, s, 2);
    assert After(actions, s) && Still(s) && s.forwarded[2] == 2;
  }
}
