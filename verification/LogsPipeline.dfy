/**
 The producer/consumer pipeline of one export call, and several calls sharing one limiter
 (exporter/clickhouselogsexporter/exporter.go:507-707).
 A push launches one producer per log record, each holding a limiter slot until it has sent its record on
 a bounded channel; one consumer appends rows; a closer closes the channel when the last producer is done.
 Records are named by their position in the push.
 */
module LogsPipeline {
  import opened Sums

  /** failed tells whether the producer returned an error instead of sending. */
  datatype Producer =
    | Working
    | Sending
    | Unwinding(failed: bool)   // still holds its slot
    | Released(failed: bool)    // slot given back, wait group not yet
    | Returning(failed: bool)   // wait group given back, errgroup not yet
    | Gone(failed: bool)

  datatype Main = Looping | Waiting | Returned
  datatype Consumer = Ready | Busy | Exited
  datatype Closer = NotSpawned | Spawned | Done

  /** chan is the channel buffer, hold the record the consumer has taken, rows the appended rows;
      closes counts executions of close(recordStream). */
  datatype Push = Push(
    total: nat,
    producers: seq<Producer>,
    main: Main,
    closer: Closer,
    consumer: Consumer,
    chan: seq<nat>,
    hold: seq<nat>,
    rows: seq<nat>,
    usage: nat,
    closes: nat,
    cancelled: bool,
    failed: bool)

  datatype System = System(slots: nat, pushes: seq<Push>)

  datatype Action =
    | Launch
    | EndLoop
    | Prepare(k: nat)
    | Fail(k: nat)
    | Send(k: nat)
    | ReleaseSlot(k: nat)
    | LeaveWaitGroup(k: nat)
    | Leave(k: nat)
    | Receive
    | Append
    | ConsumerFail
    | ConsumerExit
    | Close
    | Return
    | Cancel

  function Start(total: nat): Push {
    Push(total, [], Looping, NotSpawned, Ready, [], [], [], 0, 0, false, false)
  }

  predicate HoldsSlot(q: Producer) {
    q.Working? || q.Sending? || q.Unwinding?
  }

  predicate OutOfWaitGroup(q: Producer) {
    q.Returning? || q.Gone?
  }

  predicate Sent(q: Producer) {
    !q.Working? && !q.Sending? && !q.failed
  }

  predicate AllGone(p: Push) {
    forall k :: 0 <= k < |p.producers| ==> p.producers[k].Gone?
  }

  predicate WaitGroupZero(p: Push) {
    forall k :: 0 <= k < |p.producers| ==> OutOfWaitGroup(p.producers[k])
  }

  predicate At(p: Push, k: nat, q: Producer) {
    k < |p.producers| && p.producers[k] == q
  }

  /** Which steps a push can take when the shared limiter has slots of its cap in use. */
  predicate Enabled(cap: nat, slots: nat, p: Push, a: Action) {
    match a
    case Launch => p.main.Looping? && |p.producers| < p.total && slots < cap
    case EndLoop => p.main.Looping? && (|p.producers| == p.total || p.cancelled)
    case Prepare(k) => At(p, k, Working)
    case Fail(k) => At(p, k, Working)
    case Send(k) => At(p, k, Sending) && |p.chan| < cap
    case ReleaseSlot(k) => k < |p.producers| && p.producers[k].Unwinding? && slots > 0
    case LeaveWaitGroup(k) => k < |p.producers| && p.producers[k].Released?
    case Leave(k) => k < |p.producers| && p.producers[k].Returning?
    case Receive => p.consumer.Ready? && p.chan != []
    case Append => p.consumer.Busy?
    case ConsumerFail => p.consumer.Busy?
    case ConsumerExit => p.consumer.Ready? && (p.cancelled || (p.closes > 0 && p.chan == []))
    case Close => p.closer.Spawned? && WaitGroupZero(p)
    case Return => p.main.Waiting? && p.consumer.Exited? && AllGone(p)
    case Cancel => !p.cancelled
  }

  /** sync.Once around close. */
  function CloseOnce(p: Push): Push {
    if p.closes == 0 then p.(closes := 1) else p
  }

  function Move(p: Push, k: nat, q: Producer): Push
    requires k < |p.producers|
  {
    p.(producers := p.producers[k := q])
  }

  function Next(cap: nat, slots: nat, p: Push, a: Action): Push
    requires Enabled(cap, slots, p, a)
  {
    match a
    case Launch => p.(producers := p.producers + [Working])
    case EndLoop => p.(main := Waiting, closer := Spawned)
    case Prepare(k) => Move(p, k, Sending)
    case Fail(k) => Move(p, k, Unwinding(true))
    case Send(k) => Move(p, k, Unwinding(false)).(chan := p.chan + [k])
    case ReleaseSlot(k) => Move(p, k, Released(p.producers[k].failed))
    case LeaveWaitGroup(k) => Move(p, k, Returning(p.producers[k].failed))
    case Leave(k) =>
      var f := p.producers[k].failed;
      Move(p, k, Gone(f)).(failed := p.failed || f, cancelled := p.cancelled || f)
    case Receive => p.(consumer := Busy, hold := [p.chan[0]], chan := p.chan[1..])
    case Append => p.(consumer := Ready, hold := [], rows := p.rows + p.hold, usage := p.usage + 1)
    case ConsumerFail => p.(consumer := Exited, failed := true, cancelled := true)
    case ConsumerExit => p.(consumer := Exited)
    case Close => CloseOnce(p).(closer := Done)
    case Return => CloseOnce(p).(main := Returned)
    case Cancel => p.(cancelled := true)
  }

  function NextSlots(slots: nat, a: Action): nat
    requires a.ReleaseSlot? ==> slots > 0
  {
    if a.Launch? then slots + 1 else if a.ReleaseSlot? then slots - 1 else slots
  }

  /** Errors and cancellation come from outside the pipeline; every other step is its own. */
  predicate Own(a: Action) {
    !a.Fail? && !a.ConsumerFail? && !a.Cancel?
  }

  // ---- one push ----

  function Flow(p: Push): seq<nat> {
    p.rows + p.hold + p.chan
  }

  ghost predicate NoDuplicates(s: seq<nat>) {
    forall i, j :: 0 <= i < j < |s| ==> s[i] != s[j]
  }

  /** Each record a producer has sent is in exactly one place: a row, the consumer's hand, or the channel. */
  ghost predicate FlowInv(p: Push) {
    && NoDuplicates(Flow(p))
    && (forall k: nat :: k in Flow(p) <==> k < |p.producers| && Sent(p.producers[k]))
    && p.usage == |p.rows|
    && (p.consumer.Ready? ==> p.hold == [])
    && (p.consumer.Busy? ==> |p.hold| == 1)
  }

  ghost predicate ControlInv(cap: nat, p: Push) {
    && |p.producers| <= p.total && |p.chan| <= cap
    && p.closes <= 1
    && (p.closer.NotSpawned? <==> p.main.Looping?)
    && (p.closer.Done? ==> p.closes == 1)
    && (p.closes == 1 ==> !p.main.Looping? && WaitGroupZero(p))
    && (p.main.Returned? ==> p.closes == 1 && AllGone(p) && p.consumer.Exited?)
  }

  /** Without cancellation nobody leaves early. */
  ghost predicate CalmInv(p: Push) {
    && (p.failed ==> p.cancelled)
    && (!p.cancelled ==>
          && (!p.main.Looping? ==> |p.producers| == p.total)
          && (p.consumer.Exited? ==> p.closes == 1 && p.chan == [] && p.hold == [])
          && (forall k :: 0 <= k < |p.producers| && p.producers[k].Gone? ==> !p.producers[k].failed))
  }

  /** Nobody leaves something behind without reporting it, except a consumer told to stop. */
  ghost predicate BlameInv(p: Push) {
    && (p.consumer.Exited? && !p.failed ==> p.hold == [])
    && (forall k :: 0 <= k < |p.producers| && p.producers[k].Gone? && p.producers[k].failed ==> p.failed)
  }

  ghost predicate Inv(cap: nat, p: Push) {
    FlowInv(p) && ControlInv(cap, p) && CalmInv(p) && BlameInv(p)
  }

  lemma SendFlow(cap: nat, slots: nat, p: Push, k: nat)
    requires FlowInv(p) && Enabled(cap, slots, p, Send(k))
    ensures FlowInv(Next(cap, slots, p, Send(k)))
  {
    assert Flow(Next(cap, slots, p, Send(k))) == Flow(p) + [k];
  }

  lemma ConsumerFlow(cap: nat, slots: nat, p: Push, a: Action)
    requires FlowInv(p) && Enabled(cap, slots, p, a) && (a.Receive? || a.Append? || a.ConsumerFail? || a.ConsumerExit?)
    ensures FlowInv(Next(cap, slots, p, a))
  {
    assert Flow(Next(cap, slots, p, a)) == Flow(p);
  }

  /** Steps that touch neither the records nor who has sent one. */
  lemma SameFlow(p: Push, q: Push)
    requires FlowInv(p) && q.rows == p.rows && q.hold == p.hold && q.chan == p.chan && q.usage == p.usage
    requires q.consumer == p.consumer && |p.producers| <= |q.producers|
    requires forall k :: 0 <= k < |p.producers| ==> (Sent(q.producers[k]) <==> Sent(p.producers[k]))
    requires forall k :: |p.producers| <= k < |q.producers| ==> !Sent(q.producers[k])
    ensures FlowInv(q)
  {
    assert Flow(q) == Flow(p);
  }

  lemma FlowStep(cap: nat, slots: nat, p: Push, a: Action)
    requires FlowInv(p) && Enabled(cap, slots, p, a)
    ensures FlowInv(Next(cap, slots, p, a))
  {
    if a.Send? {
      SendFlow(cap, slots, p, a.k);
    } else if a.Receive? || a.Append? || a.ConsumerFail? || a.ConsumerExit? {
      ConsumerFlow(cap, slots, p, a);
    } else {
      SameFlow(p, Next(cap, slots, p, a));
    }
  }

  lemma ControlStep(cap: nat, slots: nat, p: Push, a: Action)
    requires ControlInv(cap, p) && Enabled(cap, slots, p, a)
    ensures ControlInv(cap, Next(cap, slots, p, a))
  {
  }

  lemma CalmStep(cap: nat, slots: nat, p: Push, a: Action)
    requires FlowInv(p) && ControlInv(cap, p) && CalmInv(p) && Enabled(cap, slots, p, a)
    ensures CalmInv(Next(cap, slots, p, a))
  {
  }

  lemma BlameStep(cap: nat, slots: nat, p: Push, a: Action)
    requires FlowInv(p) && BlameInv(p) && Enabled(cap, slots, p, a)
    ensures BlameInv(Next(cap, slots, p, a))
  {
  }

  /** A send on the closed channel would panic: no reachable push has one pending. */
  lemma NothingSentAfterClose(cap: nat, p: Push, k: nat)
    requires Inv(cap, p) && p.closes > 0
    ensures !At(p, k, Sending) && !At(p, k, Working) && !p.main.Looping?
  {
  }

  lemma RowsAreAllRecords(cap: nat, p: Push)
    requires Inv(cap, p) && p.main.Returned? && !p.cancelled
    ensures !p.failed && NoDuplicates(p.rows)
    ensures forall k: nat :: k in p.rows <==> k < p.total
  {
    assert Flow(p) == p.rows;
  }

  lemma {:induction false} DistinctBelow(s: seq<nat>, n: nat)
    requires NoDuplicates(s) && forall k: nat :: k in s <==> k < n
    ensures |s| == n
  {
    var some := if s == [] then n else s[0];
    assert some in s <==> some < n;
    if n > 0 {
      var last: nat := n - 1;
      assert last in s;
      var i :| 0 <= i < |s| && s[i] == last;
      var rest := s[..i] + s[i + 1..];
      forall k: nat ensures k in rest <==> k < n - 1 {
        if k in rest {
          assert k in s;
          assert k != n - 1;
        }
        if k < n - 1 {
          assert k in s;
          var j :| 0 <= j < |s| && s[j] == k;
          assert rest[if j < i then j else j - 1] == k;
        }
      }
      DistinctBelow(rest, n - 1);
    }
  }

  /** When group.Wait returns without error or cancellation, every log record has exactly one
      appended row and the usage count is the record count. */
  lemma EveryRecordExactlyOnce(cap: nat, p: Push)
    requires Inv(cap, p) && p.main.Returned? && !p.cancelled
    ensures !p.failed && p.usage == p.total == |p.rows|
    ensures forall k: nat :: k < p.total ==> multiset(p.rows)[k] == 1
    ensures forall k: nat :: k in p.rows ==> k < p.total
  {
    RowsAreAllRecords(cap, p);
    DistinctBelow(p.rows, p.total);
    forall k: nat | k < p.total ensures multiset(p.rows)[k] == 1 {
      OccursOnce(p.rows, k);
    }
  }

  lemma {:induction false} OccursOnce(s: seq<nat>, k: nat)
    requires NoDuplicates(s) && k in s
    ensures multiset(s)[k] == 1
  {
    var i :| 0 <= i < |s| && s[i] == k;
    assert s == s[..i] + [k] + s[i + 1..];
    assert k !in s[..i] && k !in s[i + 1..];
    assert multiset(s) == multiset(s[..i]) + multiset{k} + multiset(s[i + 1..]);
  }

  /** Every record has exactly one row, and there are no other rows. */
  ghost predicate Complete(p: Push) {
    && (forall k: nat :: k < p.total ==> multiset(p.rows)[k] == 1)
    && (forall k: nat :: k in p.rows ==> k < p.total)
  }

  lemma NilReturnFlow(cap: nat, p: Push)
    requires Inv(cap, p) && p.main.Returned? && !p.failed
    ensures Flow(p) == p.rows + p.chan && |p.rows| + |p.chan| == |p.producers|
    ensures forall k: nat :: k in Flow(p) <==> k < |p.producers|
  {
    assert forall k: nat :: k < |p.producers| ==> Sent(p.producers[k]);
    assert Flow(p) == p.rows + p.chan;
    DistinctBelow(Flow(p), |p.producers|);
  }

  lemma AllLaunchedIsComplete(cap: nat, p: Push)
    requires Inv(cap, p) && p.main.Returned? && !p.failed && |p.producers| == p.total && p.chan == []
    ensures Complete(p)
  {
    NilReturnFlow(cap, p);
    assert p.rows + p.chan == p.rows;
    forall k: nat | k < p.total ensures multiset(p.rows)[k] == 1 {
      OccursOnce(p.rows, k);
    }
  }

  lemma CompleteWasLaunched(cap: nat, p: Push)
    requires Inv(cap, p) && p.main.Returned? && !p.failed && Complete(p)
    ensures |p.producers| == p.total && p.chan == []
  {
    NilReturnFlow(cap, p);
    forall k: nat ensures k < p.total ==> k in p.rows {
      assert k < p.total ==> multiset(p.rows)[k] == 1;
    }
    assert forall k: nat :: k in p.rows ==> k in Flow(p);
    assert |p.producers| == p.total by {
      var k: nat := |p.producers|;
      assert k in p.rows ==> k in Flow(p);
    }
    RowsFillTheFlow(p.rows, p.chan, p.total);
  }

  lemma RowsFillTheFlow(rows: seq<nat>, chan: seq<nat>, n: nat)
    requires NoDuplicates(rows + chan) && |rows| + |chan| == n && forall k: nat :: k < n ==> k in rows
    requires forall k: nat :: k in rows + chan ==> k < n
    ensures chan == []
  {
    assert NoDuplicates(rows) by {
      assert forall i :: 0 <= i < |rows| ==> (rows + chan)[i] == rows[i];
    }
    forall k: nat ensures k in rows <==> k < n {
      assert k in rows ==> k in rows + chan;
    }
    DistinctBelow(rows, n);
  }

  /** When group.Wait returns nil, each record has exactly one row if and only if every record was launched and
      none is left in the channel, and if and only if the usage count is the record count. */
  lemma NilReturnIsCompleteIff(cap: nat, p: Push)
    requires Inv(cap, p) && p.main.Returned? && !p.failed
    ensures Complete(p) <==> |p.producers| == p.total && p.chan == []
    ensures Complete(p) <==> p.usage == p.total
  {
    NilReturnFlow(cap, p);
    if |p.producers| == p.total && p.chan == [] {
      AllLaunchedIsComplete(cap, p);
    }
    if Complete(p) {
      CompleteWasLaunched(cap, p);
    }
  }

  // ---- no deadlock ----

  /** The producers left are all stuck sending to a consumer that has gone. */
  predicate Wedged(cap: nat, p: Push) {
    && p.main.Waiting? && p.consumer.Exited? && |p.chan| == cap
    && (forall k :: 0 <= k < |p.producers| ==> p.producers[k].Sending? || p.producers[k].Gone?)
    && (exists k :: 0 <= k < |p.producers| && p.producers[k].Sending?)
  }

  /** The main loop wants a slot and other pushes hold them all. */
  predicate Starved(cap: nat, slots: nat, p: Push) {
    && p.main.Looping? && |p.producers| < p.total && !p.cancelled && slots >= cap
    && AllGone(p) && p.consumer.Ready? && p.chan == []
  }

  predicate Finished(p: Push) {
    p.main.Returned? && p.closer.Done?
  }

  ghost predicate HasOwnStep(cap: nat, slots: nat, p: Push) {
    exists a :: Own(a) && Enabled(cap, slots, p, a)
  }

  /** A producer that is neither gone nor blocked on a full channel can move. */
  lemma ProducerMoves(cap: nat, slots: nat, p: Push, k: nat)
    requires k < |p.producers| && !p.producers[k].Gone?
    requires p.producers[k].Sending? ==> |p.chan| < cap
    requires p.producers[k].Unwinding? ==> slots > 0
    ensures HasOwnStep(cap, slots, p)
  {
    match p.producers[k] {
      case Working => assert Enabled(cap, slots, p, Prepare(k));
      case Sending => assert Enabled(cap, slots, p, Send(k));
      case Unwinding(_) => assert Enabled(cap, slots, p, ReleaseSlot(k));
      case Released(_) => assert Enabled(cap, slots, p, LeaveWaitGroup(k));
      case Returning(_) => assert Enabled(cap, slots, p, Leave(k));
    }
  }

  lemma ConsumerMoves(cap: nat, slots: nat, p: Push)
    requires p.consumer.Busy? || (p.consumer.Ready? && (p.chan != [] || p.cancelled || p.closes > 0))
    ensures HasOwnStep(cap, slots, p)
  {
    if p.consumer.Busy? {
      assert Enabled(cap, slots, p, Append);
    } else if p.chan != [] {
      assert Enabled(cap, slots, p, Receive);
    } else {
      assert Enabled(cap, slots, p, ConsumerExit);
    }
  }

  lemma MainMoves(cap: nat, slots: nat, p: Push)
    requires cap >= 1 && Inv(cap, p) && AllGone(p) && !Finished(p) && !Starved(cap, slots, p)
    ensures HasOwnStep(cap, slots, p)
  {
    if p.closer.Spawned? {
      assert Enabled(cap, slots, p, Close);
    } else if p.main.Looping? {
      if |p.producers| == p.total || p.cancelled {
        assert Enabled(cap, slots, p, EndLoop);
      } else if slots < cap {
        assert Enabled(cap, slots, p, Launch);
      } else {
        ConsumerMoves(cap, slots, p);
      }
    } else if p.consumer.Exited? {
      assert Enabled(cap, slots, p, Return);
    } else {
      ConsumerMoves(cap, slots, p);
    }
  }

  /** In every reachable state, errors and cancellation included: a push has no step of its own
      exactly when it has finished, waits for other pushes to give slots back, or is wedged. */
  lemma StuckExactlyWhen(cap: nat, slots: nat, p: Push)
    requires cap >= 1 && Inv(cap, p)
    requires forall k :: 0 <= k < |p.producers| && p.producers[k].Unwinding? ==> slots > 0
    ensures !HasOwnStep(cap, slots, p) <==> Finished(p) || Starved(cap, slots, p) || Wedged(cap, p)
  {
    if !(Finished(p) || Starved(cap, slots, p) || Wedged(cap, p)) {
      if AllGone(p) {
        MainMoves(cap, slots, p);
      } else {
        InFlightMoves(cap, slots, p);
      }
    } else if HasOwnStep(cap, slots, p) {
      var a :| Own(a) && Enabled(cap, slots, p, a);
      StuckHasNoStep(cap, slots, p, a);
    }
  }

  lemma StuckHasNoStep(cap: nat, slots: nat, p: Push, a: Action)
    requires cap >= 1 && Inv(cap, p) && (Finished(p) || Starved(cap, slots, p) || Wedged(cap, p))
    ensures !(Own(a) && Enabled(cap, slots, p, a))
  {
  }

  lemma InFlightMoves(cap: nat, slots: nat, p: Push)
    requires cap >= 1 && Inv(cap, p) && !AllGone(p) && !Wedged(cap, p)
    requires forall k :: 0 <= k < |p.producers| && p.producers[k].Unwinding? ==> slots > 0
    ensures HasOwnStep(cap, slots, p)
  {
    var k: nat :| k < |p.producers| && !p.producers[k].Gone?;
    if !p.producers[k].Sending? || |p.chan| < cap {
      ProducerMoves(cap, slots, p, k);
    } else if !p.consumer.Exited? {
      ConsumerMoves(cap, slots, p);
    } else if j: nat :| j < |p.producers| && !p.producers[j].Sending? && !p.producers[j].Gone? {
      ProducerMoves(cap, slots, p, j);
    } else {
      assert p.cancelled;
      assert Enabled(cap, slots, p, EndLoop);
    }
  }

  /** A wedge needs a cancellation. */
  lemma WedgedWasCancelled(cap: nat, p: Push)
    requires cap >= 1 && Inv(cap, p) && Wedged(cap, p)
    ensures p.cancelled
  {
  }

  // ---- pushes sharing the limiter ----

  function SlotOf(q: Producer): nat {
    if HoldsSlot(q) then 1 else 0
  }

  function SlotsHeld(p: Push): nat {
    Sum(SlotOf, p.producers)
  }

  ghost predicate SystemInv(cap: nat, s: System) {
    && s.slots == Sum(SlotsHeld, s.pushes)
    && s.slots <= cap
    && forall i :: 0 <= i < |s.pushes| ==> Inv(cap, s.pushes[i])
  }

  predicate SystemEnabled(cap: nat, s: System, i: nat, a: Action) {
    i < |s.pushes| && Enabled(cap, s.slots, s.pushes[i], a)
  }

  function SystemNext(cap: nat, s: System, i: nat, a: Action): System
    requires SystemEnabled(cap, s, i, a)
  {
    System(NextSlots(s.slots, a), s.pushes[i := Next(cap, s.slots, s.pushes[i], a)])
  }

  lemma SlotsStep(cap: nat, slots: nat, p: Push, a: Action)
    requires Enabled(cap, slots, p, a)
    ensures SlotsHeld(Next(cap, slots, p, a)) + slots == SlotsHeld(p) + NextSlots(slots, a)
  {
    match a {
      case Launch => SumAppend(SlotOf, p.producers, Working);
      case Prepare(k) => SumUpdate(SlotOf, p.producers, k, Sending);
      case Fail(k) => SumUpdate(SlotOf, p.producers, k, Unwinding(true));
      case Send(k) => SumUpdate(SlotOf, p.producers, k, Unwinding(false));
      case ReleaseSlot(k) => SumUpdate(SlotOf, p.producers, k, Released(p.producers[k].failed));
      case LeaveWaitGroup(k) => SumUpdate(SlotOf, p.producers, k, Returning(p.producers[k].failed));
      case Leave(k) => SumUpdate(SlotOf, p.producers, k, Gone(p.producers[k].failed));
      case _ =>
    }
  }

  lemma SystemStep(cap: nat, s: System, i: nat, a: Action)
    requires SystemInv(cap, s) && SystemEnabled(cap, s, i, a)
    ensures SystemInv(cap, SystemNext(cap, s, i, a))
  {
    var p := s.pushes[i];
    FlowStep(cap, s.slots, p, a);
    ControlStep(cap, s.slots, p, a);
    CalmStep(cap, s.slots, p, a);
    BlameStep(cap, s.slots, p, a);
    SlotsStep(cap, s.slots, p, a);
    SumUpdate(SlotsHeld, s.pushes, i, Next(cap, s.slots, p, a));
  }

  /** Unless a push is wedged the system never deadlocks, errors and cancellation included: while some push
      has not finished, some push can step. */
  lemma NoDeadlock(cap: nat, s: System, i: nat)
    requires cap >= 1 && SystemInv(cap, s) && i < |s.pushes| && !Finished(s.pushes[i])
    requires forall j :: 0 <= j < |s.pushes| ==> !Wedged(cap, s.pushes[j])
    ensures exists j: nat :: j < |s.pushes| && HasOwnStep(cap, s.slots, s.pushes[j])
  {
    UnwindingUsesSlot(cap, s, i);
    StuckExactlyWhen(cap, s.slots, s.pushes[i]);
    if Starved(cap, s.slots, s.pushes[i]) {
      var j := SlotHolder(cap, s);
      UnwindingUsesSlot(cap, s, j);
      InFlightMoves(cap, s.slots, s.pushes[j]);
    }
  }

  lemma SlotHolder(cap: nat, s: System) returns (j: nat)
    requires SystemInv(cap, s) && s.slots > 0
    ensures j < |s.pushes| && !AllGone(s.pushes[j])
  {
    SumPositive(SlotsHeld, s.pushes);
    j :| j < |s.pushes| && SlotsHeld(s.pushes[j]) > 0;
    SumPositive(SlotOf, s.pushes[j].producers);
  }

  lemma UnwindingUsesSlot(cap: nat, s: System, i: nat)
    requires SystemInv(cap, s) && i < |s.pushes|
    ensures forall k :: 0 <= k < |s.pushes[i].producers| && s.pushes[i].producers[k].Unwinding? ==> s.slots > 0
  {
    if k :| 0 <= k < |s.pushes[i].producers| && s.pushes[i].producers[k].Unwinding? {
      assert SlotOf(s.pushes[i].producers[k]) > 0;
      SumPositive(SlotOf, s.pushes[i].producers);
      assert SlotsHeld(s.pushes[i]) > 0;
      SumPositive(SlotsHeld, s.pushes);
    }
  }

  // ---- termination ----

  function Work(q: Producer): nat {
    match q
    case Working => 9
    case Sending => 8
    case Unwinding(_) => 3
    case Released(_) => 2
    case Returning(_) => 1
    case Gone(_) => 0
  }

  /** Records not launched, in flight, buffered and in hand, plus the control steps left. */
  function WorkLeft(p: Push): nat {
    10 * (if |p.producers| <= p.total then p.total - |p.producers| else 0)
    + Sum(Work, p.producers) + 4 * |p.chan| + 3 * |p.hold|
    + (match p.main case Looping => 2 case Waiting => 1 case Returned => 0)
    + (if p.consumer.Exited? then 0 else 1)
    + (if p.closer.Done? then 0 else 1)
    + (if p.cancelled then 0 else 1)
  }

  lemma LaunchWork(cap: nat, slots: nat, p: Push)
    requires Inv(cap, p) && Enabled(cap, slots, p, Launch)
    ensures WorkLeft(Next(cap, slots, p, Launch)) < WorkLeft(p)
  {
    SumAppend(Work, p.producers, Working);
  }

  lemma ProducerWork(cap: nat, slots: nat, p: Push, a: Action)
    requires Enabled(cap, slots, p, a)
    requires a.Prepare? || a.Fail? || a.ReleaseSlot? || a.LeaveWaitGroup?
    ensures WorkLeft(Next(cap, slots, p, a)) < WorkLeft(p)
  {
    match a {
      case Prepare(k) => MoveWork(p, k, Sending);
      case Fail(k) => MoveWork(p, k, Unwinding(true));
      case ReleaseSlot(k) => MoveWork(p, k, Released(p.producers[k].failed));
      case LeaveWaitGroup(k) => MoveWork(p, k, Returning(p.producers[k].failed));
    }
  }

  lemma SendWork(cap: nat, slots: nat, p: Push, k: nat)
    requires Enabled(cap, slots, p, Send(k))
    ensures WorkLeft(Next(cap, slots, p, Send(k))) < WorkLeft(p)
  {
    MoveWork(p, k, Unwinding(false));
  }

  lemma LeaveWork(cap: nat, slots: nat, p: Push, k: nat)
    requires Enabled(cap, slots, p, Leave(k))
    ensures WorkLeft(Next(cap, slots, p, Leave(k))) < WorkLeft(p)
  {
    MoveWork(p, k, Gone(p.producers[k].failed));
  }

  lemma ControlWork(cap: nat, slots: nat, p: Push, a: Action)
    requires Inv(cap, p) && Enabled(cap, slots, p, a)
    requires a.EndLoop? || a.Receive? || a.Append? || a.ConsumerFail? || a.ConsumerExit? || a.Close? || a.Return?
             || a.Cancel?
    ensures WorkLeft(Next(cap, slots, p, a)) < WorkLeft(p)
  {
    assert Next(cap, slots, p, a).producers == p.producers;
  }

  lemma WorkStep(cap: nat, slots: nat, p: Push, a: Action)
    requires Inv(cap, p) && Enabled(cap, slots, p, a)
    ensures WorkLeft(Next(cap, slots, p, a)) < WorkLeft(p)
  {
    match a {
      case Launch => LaunchWork(cap, slots, p);
      case Prepare(_) => ProducerWork(cap, slots, p, a);
      case Fail(_) => ProducerWork(cap, slots, p, a);
      case ReleaseSlot(_) => ProducerWork(cap, slots, p, a);
      case LeaveWaitGroup(_) => ProducerWork(cap, slots, p, a);
      case Send(k) => SendWork(cap, slots, p, k);
      case Leave(k) => LeaveWork(cap, slots, p, k);
      case _ => ControlWork(cap, slots, p, a);
    }
  }

  lemma MoveWork(p: Push, k: nat, q: Producer)
    requires k < |p.producers| && Work(q) < Work(p.producers[k])
    ensures WorkLeft(Move(p, k, q)) + Work(p.producers[k]) == WorkLeft(p) + Work(q)
  {
    SumUpdate(Work, p.producers, k, q);
  }

  // ---- runs ----

  datatype Step = Step(push: nat, action: Action)

  function Init(totals: seq<nat>): System {
    System(0, seq(|totals|, i requires 0 <= i < |totals| => Start(totals[i])))
  }

  ghost predicate CanRun(cap: nat, totals: seq<nat>, steps: seq<Step>)
    decreases |steps|, 0
  {
    steps != [] ==>
      var n := |steps| - 1;
      && CanRun(cap, totals, steps[..n])
      && SystemEnabled(cap, Run(cap, totals, steps[..n]), steps[n].push, steps[n].action)
  }

  ghost function Run(cap: nat, totals: seq<nat>, steps: seq<Step>): System
    requires CanRun(cap, totals, steps)
    decreases |steps|, 1
  {
    if steps == [] then Init(totals)
    else
      var n := |steps| - 1;
      SystemNext(cap, Run(cap, totals, steps[..n]), steps[n].push, steps[n].action)
  }

  lemma {:induction false} RunKeepsInv(cap: nat, totals: seq<nat>, steps: seq<Step>)
    requires CanRun(cap, totals, steps)
    ensures SystemInv(cap, Run(cap, totals, steps))
    ensures |Run(cap, totals, steps).pushes| == |totals|
    ensures forall i :: 0 <= i < |totals| ==> Run(cap, totals, steps).pushes[i].total == totals[i]
  {
    if steps == [] {
      var s := Init(totals);
      SumPositive(SlotsHeld, s.pushes);
    } else {
      var n := |steps| - 1;
      RunKeepsInv(cap, totals, steps[..n]);
      SystemStep(cap, Run(cap, totals, steps[..n]), steps[n].push, steps[n].action);
    }
  }

  /** In every interleaving of every push: the limiter is never overdrawn, each record channel is closed
      at most once, and after it is closed nobody is sending or about to. */
  lemma EveryRunIsSafe(cap: nat, totals: seq<nat>, steps: seq<Step>, i: nat)
    requires CanRun(cap, totals, steps) && i < |totals|
    ensures var s := Run(cap, totals, steps);
            && Sum(SlotsHeld, s.pushes) == s.slots <= cap
            && i < |s.pushes| && s.pushes[i].closes <= 1
            && (s.pushes[i].closes == 1 ==> forall k :: !At(s.pushes[i], k, Working) && !At(s.pushes[i], k, Sending))
            && (s.pushes[i].closes == 1 ==> !s.pushes[i].main.Looping?)
  {
    RunKeepsInv(cap, totals, steps);
    var p := Run(cap, totals, steps).pushes[i];
    if p.closes == 1 {
      forall k ensures !At(p, k, Working) && !At(p, k, Sending) {
        NothingSentAfterClose(cap, p, k);
      }
    }
  }

  /** Whatever the other pushes do, a push that returns uncancelled has written each of its records once. */
  lemma EveryReturnIsComplete(cap: nat, totals: seq<nat>, steps: seq<Step>, i: nat)
    requires CanRun(cap, totals, steps) && i < |totals|
    requires i < |Run(cap, totals, steps).pushes|
    requires Run(cap, totals, steps).pushes[i].main.Returned? && !Run(cap, totals, steps).pushes[i].cancelled
    ensures var p := Run(cap, totals, steps).pushes[i];
            && !p.failed && p.usage == totals[i] == |p.rows|
            && (forall k: nat :: k < totals[i] ==> multiset(p.rows)[k] == 1)
            && (forall k: nat :: k in p.rows ==> k < totals[i])
  {
    RunKeepsInv(cap, totals, steps);
    EveryRecordExactlyOnce(cap, Run(cap, totals, steps).pushes[i]);
  }

  /** Every run is finite: each step, errors and cancellations included, uses up work. */
  lemma {:induction false} RunsAreBounded(cap: nat, totals: seq<nat>, steps: seq<Step>)
    requires CanRun(cap, totals, steps)
    ensures |steps| + Sum(WorkLeft, Run(cap, totals, steps).pushes) <= Sum(WorkLeft, Init(totals).pushes)
  {
    if steps != [] {
      var n := |steps| - 1;
      var s := Run(cap, totals, steps[..n]);
      RunKeepsInv(cap, totals, steps[..n]);
      RunsAreBounded(cap, totals, steps[..n]);
      var p' := Next(cap, s.slots, s.pushes[steps[n].push], steps[n].action);
      WorkStep(cap, s.slots, s.pushes[steps[n].push], steps[n].action);
      SumUpdate(WorkLeft, s.pushes, steps[n].push, p');
    }
  }

  function StepBound(total: nat): nat {
    10 * total + 5
  }

  /** No run of pushes with these record counts is longer than this. */
  lemma RunLength(cap: nat, totals: seq<nat>, steps: seq<Step>)
    requires CanRun(cap, totals, steps)
    ensures |steps| <= Sum(StepBound, totals)
  {
    RunsAreBounded(cap, totals, steps);
    WorkOfInit(totals);
  }

  lemma {:induction false} WorkOfInit(totals: seq<nat>)
    ensures Sum(WorkLeft, Init(totals).pushes) == Sum(StepBound, totals)
  {
    if totals != [] {
      var n := |totals| - 1;
      WorkOfInit(totals[..n]);
      assert Init(totals).pushes[..n] == Init(totals[..n]).pushes;
      assert Init(totals).pushes[n] == Start(totals[n]);
    }
  }

  /** A run that cannot be continued and in which no push is wedged has finished every push. */
  lemma UnwedgedRunsFinish(cap: nat, totals: seq<nat>, steps: seq<Step>, i: nat)
    requires cap >= 1 && CanRun(cap, totals, steps) && i < |totals|
    requires var s := Run(cap, totals, steps);
             forall j :: 0 <= j < |s.pushes| ==> !Wedged(cap, s.pushes[j]) && !HasOwnStep(cap, s.slots, s.pushes[j])
    ensures i < |Run(cap, totals, steps).pushes| && Finished(Run(cap, totals, steps).pushes[i])
  {
    RunKeepsInv(cap, totals, steps);
    var s := Run(cap, totals, steps);
    if !Finished(s.pushes[i]) {
      NoDeadlock(cap, s, i);
    }
  }

  /** An uncancelled run that cannot be continued has finished every push, with all its rows. */
  lemma CalmRunsFinish(cap: nat, totals: seq<nat>, steps: seq<Step>, i: nat)
    requires cap >= 1 && CanRun(cap, totals, steps) && i < |totals|
    requires var s := Run(cap, totals, steps);
             forall j :: 0 <= j < |s.pushes| ==> !s.pushes[j].cancelled && !HasOwnStep(cap, s.slots, s.pushes[j])
    ensures i < |Run(cap, totals, steps).pushes|
    ensures Finished(Run(cap, totals, steps).pushes[i]) && Complete(Run(cap, totals, steps).pushes[i])
    ensures Run(cap, totals, steps).pushes[i].usage == totals[i] == |Run(cap, totals, steps).pushes[i].rows|
  {
    RunKeepsInv(cap, totals, steps);
    var s := Run(cap, totals, steps);
    forall j | 0 <= j < |s.pushes| ensures !Wedged(cap, s.pushes[j]) {
      if Wedged(cap, s.pushes[j]) {
        WedgedWasCancelled(cap, s.pushes[j]);
      }
    }
    UnwedgedRunsFinish(cap, totals, steps, i);
    EveryRecordExactlyOnce(cap, s.pushes[i]);
  }

  /** In every run, a push whose group.Wait returned nil has written each of its records once if and only if it
      launched them all and none is left in its channel, and if and only if its usage count says so. */
  lemma NilWaitIsCompleteIff(cap: nat, totals: seq<nat>, steps: seq<Step>, i: nat)
    requires CanRun(cap, totals, steps) && i < |totals| && i < |Run(cap, totals, steps).pushes|
    requires Run(cap, totals, steps).pushes[i].main.Returned? && !Run(cap, totals, steps).pushes[i].failed
    ensures var p := Run(cap, totals, steps).pushes[i];
            && p.total == totals[i]
            && (Complete(p) <==> |p.producers| == p.total && p.chan == [])
            && (Complete(p) <==> p.usage == p.total)
  {
    RunKeepsInv(cap, totals, steps);
    NilReturnIsCompleteIff(cap, Run(cap, totals, steps).pushes[i]);
  }

  // ---- what cancellation does ----

  lemma Extend(cap: nat, totals: seq<nat>, steps: seq<Step>, i: nat, a: Action)
    requires CanRun(cap, totals, steps) && SystemEnabled(cap, Run(cap, totals, steps), i, a)
    ensures CanRun(cap, totals, steps + [Step(i, a)])
    ensures Run(cap, totals, steps + [Step(i, a)]) == SystemNext(cap, Run(cap, totals, steps), i, a)
  {
    assert (steps + [Step(i, a)])[..|steps|] == steps;
  }

  /** The states of a single push with one slot, one step at a time. */
  ghost predicate Alone(total: nat, steps: seq<Step>, slots: nat, p: Push) {
    CanRun(1, [total], steps) && Run(1, [total], steps) == System(slots, [p])
  }

  lemma ExtendAlone(total: nat, steps: seq<Step>, slots: nat, p: Push, a: Action)
    returns (longer: seq<Step>, slots': nat, p': Push)
    requires Alone(total, steps, slots, p) && Enabled(1, slots, p, a)
    ensures slots' == NextSlots(slots, a) && p' == Next(1, slots, p, a) && Alone(total, longer, slots', p')
  {
    Extend(1, [total], steps, 0, a);
    longer, slots', p' := steps + [Step(0, a)], NextSlots(slots, a), Next(1, slots, p, a);
  }

  lemma StartsAlone(total: nat)
    ensures Alone(total, [], 0, Start(total))
  {
    assert Init([total]).pushes == [Start(total)];
  }

  lemma FirstRecordSent() returns (s: seq<Step>, n: nat, p: Push)
    ensures Alone(2, s, n, p) && n == 1
    ensures p == Start(2).(producers := [Unwinding(false)], chan := [0])
  {
    StartsAlone(2);
    s, n, p := ExtendAlone(2, [], 0, Start(2), Launch);
    s, n, p := ExtendAlone(2, s, n, p, Prepare(0));
    s, n, p := ExtendAlone(2, s, n, p, Send(0));
  }

  /** A first record is sent and its producer leaves. */
  lemma FirstProducerGone() returns (s: seq<Step>, n: nat, p: Push)
    ensures Alone(2, s, n, p) && n == 0
    ensures p == Start(2).(producers := [Gone(false)], chan := [0])
  {
    s, n, p := FirstRecordSent();
    s, n, p := ExtendAlone(2, s, n, p, ReleaseSlot(0));
    s, n, p := ExtendAlone(2, s, n, p, LeaveWaitGroup(0));
    s, n, p := ExtendAlone(2, s, n, p, Leave(0));
  }

  /** With one slot and two records, a cancelled consumer leaves the second producer sending for ever:
      the send does not watch the cancelled context, so the push never returns. */
  lemma CancellationCanWedge()
    ensures exists steps: seq<Step>, n: nat, p: Push :: Alone(2, steps, n, p) && Wedged(1, p)
  {
    var s, n, p := FirstProducerGone();
    s, n, p := ExtendAlone(2, s, n, p, Launch);
    s, n, p := ExtendAlone(2, s, n, p, Prepare(1));
    s, n, p := ExtendAlone(2, s, n, p, Cancel);
    s, n, p := ExtendAlone(2, s, n, p, ConsumerExit);
    s, n, p := ExtendAlone(2, s, n, p, EndLoop);
    assert p.producers[1] == Sending;
  }

  lemma CancelledBeforeAnything() returns (s: seq<Step>, n: nat, p: Push)
    ensures Alone(1, s, n, p)
    ensures p == Start(1).(cancelled := true, main := Waiting, closer := Spawned, consumer := Exited)
  {
    StartsAlone(1);
    s, n, p := ExtendAlone(1, [], 0, Start(1), Cancel);
    s, n, p := ExtendAlone(1, s, n, p, EndLoop);
    s, n, p := ExtendAlone(1, s, n, p, ConsumerExit);
  }

  /** In a cancelled push group.Wait can return nil before any row is written; what comes after it then works
      with the cancelled context. */
  lemma CancelledWaitCanReturnNil()
    ensures exists steps: seq<Step>, n: nat, p: Push ::
              Alone(1, steps, n, p) && Finished(p) && !p.failed && p.rows == []
  {
    var s, n, p := CancelledBeforeAnything();
    s, n, p := ExtendAlone(1, s, n, p, Close);
    s, n, p := ExtendAlone(1, s, n, p, Return);
    assert Alone(1, s, n, p) && Finished(p);
  }
}
