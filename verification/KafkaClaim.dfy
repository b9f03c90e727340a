/**
 Marking, committing and back-pressure of one Kafka claim (receiver/signozkafkareceiver/kafka_receiver.go:461-496,
 571-650; the metrics and logs handlers repeat the traces one). What the next consumer, the retry ticker and
 the session do is the script of a claim; what the handler does is its log.
 */
module KafkaClaim {

  datatype Marking = Marking(after: bool, onError: bool)

  /** What a call of the next consumer returns. */
  datatype Result = Accepted | HighMemory | Failed

  /** What wakes the retry loop. */
  datatype Wake = Ticker(result: Result) | SessionDone

  /** A message, what its first consume returns, and what happens while it is retried. */
  datatype Message = Message(decodes: bool, first: Result, wakes: seq<Wake>)

  /** Waiting: the script ends while the retry loop still waits. */
  datatype Outcome = Nil | Error | EndedWhileRetrying | Waiting

  datatype Effect = Marked(i: nat) | Tried(i: nat, result: Result) | Paused | Resumed | Committed

  // ---- reading a log ----

  function Marks(log: seq<Effect>): seq<nat> {
    if log == [] then []
    else
      var n := |log| - 1;
      var before := Marks(log[..n]);
      if log[n].Marked? then before + [log[n].i] else before
  }

  /** The messages the next consumer took. */
  function Accepts(log: seq<Effect>): seq<nat> {
    if log == [] then []
    else
      var n := |log| - 1;
      var before := Accepts(log[..n]);
      if log[n].Tried? && log[n].result.Accepted? then before + [log[n].i] else before
  }

  function Pauses(log: seq<Effect>): nat {
    if log == [] then 0 else Pauses(log[..|log| - 1]) + if log[|log| - 1].Paused? then 1 else 0
  }

  function Resumes(log: seq<Effect>): nat {
    if log == [] then 0 else Resumes(log[..|log| - 1]) + if log[|log| - 1].Resumed? then 1 else 0
  }

  function Commits(log: seq<Effect>): nat {
    if log == [] then 0 else Commits(log[..|log| - 1]) + if log[|log| - 1].Committed? then 1 else 0
  }

  /** The first n messages of the claim, in order. */
  function Prefix(n: nat): seq<nat> {
    seq(n, (i: nat) => i)
  }

  /** How far the marked messages may be from the consumed ones. */
  predicate Lag(marking: Marking, marked: nat, consumed: nat) {
    if !marking.after then consumed <= marked <= consumed + 1
    else if marking.onError then marked <= consumed + 1 && consumed <= marked + 1
    else marked <= consumed <= marked + 1
  }

  /** Marked and consumed messages are each a prefix of the claim, and in step. With marking after and not
      on error, what is committed was consumed. */
  ghost predicate InStep(marking: Marking, log: seq<Effect>) {
    && Marks(log) == Prefix(|Marks(log)|) && Accepts(log) == Prefix(|Accepts(log)|)
    && Lag(marking, |Marks(log)|, |Accepts(log)|)
    && (marking.after && !marking.onError && log != [] && log[|log| - 1].Committed? ==> |Marks(log)| == |Accepts(log)|)
  }

  /** In step at every point. */
  ghost predicate AlwaysInStep(marking: Marking, log: seq<Effect>) {
    forall k :: 0 <= k <= |log| ==> InStep(marking, log[..k])
  }

  lemma Extend(marking: Marking, log: seq<Effect>, e: Effect)
    requires AlwaysInStep(marking, log) && InStep(marking, log + [e])
    ensures AlwaysInStep(marking, log + [e])
  {
    forall k | 0 <= k <= |log + [e]| ensures InStep(marking, (log + [e])[..k]) {
      if k <= |log| {
        assert (log + [e])[..k] == log[..k];
      } else {
        assert (log + [e])[..k] == log + [e];
      }
    }
  }

  lemma ReadNext(log: seq<Effect>, e: Effect)
    ensures Marks(log + [e]) == if e.Marked? then Marks(log) + [e.i] else Marks(log)
    ensures Accepts(log + [e]) == if e.Tried? && e.result.Accepted? then Accepts(log) + [e.i] else Accepts(log)
    ensures Pauses(log + [e]) == Pauses(log) + if e.Paused? then 1 else 0
    ensures Resumes(log + [e]) == Resumes(log) + if e.Resumed? then 1 else 0
    ensures Commits(log + [e]) == Commits(log) + if e.Committed? then 1 else 0
  {
    assert (log + [e])[..|log|] == log;
  }

  lemma NextInPrefix(n: nat)
    ensures Prefix(n) + [n] == Prefix(n + 1)
  {
  }

  /** Where the log stands: how many messages are marked, how many consumed, and the pauses not yet resumed. */
  ghost predicate At(marking: Marking, log: seq<Effect>, marked: nat, consumed: nat, paused: nat) {
    && AlwaysInStep(marking, log)
    && Marks(log) == Prefix(marked) && Accepts(log) == Prefix(consumed) && Pauses(log) == Resumes(log) + paused
  }

  /** One effect more. */
  lemma Step(marking: Marking, log: seq<Effect>, marked: nat, consumed: nat, paused: nat, e: Effect)
    requires At(marking, log, marked, consumed, paused)
    requires e.Marked? ==> e.i == marked && Lag(marking, marked + 1, consumed)
    requires e.Tried? && e.result.Accepted? ==> e.i == consumed && Lag(marking, marked, consumed + 1)
    requires e.Resumed? ==> paused > 0
    requires e.Committed? && marking.after && !marking.onError ==> marked == consumed
    ensures At(marking, log + [e], if e.Marked? then marked + 1 else marked,
               if e.Tried? && e.result.Accepted? then consumed + 1 else consumed,
               if e.Paused? then paused + 1 else if e.Resumed? then paused - 1 else paused)
    ensures Commits(log + [e]) == Commits(log) + if e.Committed? then 1 else 0
  {
    ReadNext(log, e);
    NextInPrefix(marked);
    NextInPrefix(consumed);
    assert log[..|log|] == log;
    assert InStep(marking, log);
    Extend(marking, log, e);
  }

  // ---- the memory limiter ----

  /** How the retries of a message end: the first wake that is not high memory again decides. */
  function Retried(wakes: seq<Wake>): Outcome {
    if wakes == [] then Waiting
    else if wakes[0].SessionDone? then EndedWhileRetrying
    else
      match wakes[0].result
      case Accepted => Nil
      case Failed => Error
      case HighMemory => Retried(wakes[1..])
  }

  function Fate(m: Message): Outcome {
    match m.first
    case Accepted => Nil
    case Failed => Error
    case HighMemory => Retried(m.wakes)
  }

  function LeftOver(outcome: Outcome): nat {
    if outcome.Nil? || outcome.Error? then 0 else 1
  }

  /** Returns nil exactly if its last consume did; pauses once, if at all, and resumes on every return but
      the end of the session. */
  method WithMemoryLimiter(marking: Marking, i: nat, m: Message, before: seq<Effect>, ghost marked: nat)
    returns (outcome: Outcome, log: seq<Effect>)
    requires At(marking, before, marked, i, 0) && Lag(marking, marked, i + 1)
    ensures before < log && outcome == Fate(m) && Commits(log) == Commits(before)
    ensures At(marking, log, marked, if outcome.Nil? then i + 1 else i, LeftOver(outcome))
    ensures outcome.Nil? <==> LastResult(log) == Accepted
    ensures outcome.Error? <==> LastResult(log) == Failed
  {
    Step(marking, before, marked, i, 0, Tried(i, m.first));
    log := before + [Tried(i, m.first)];
    if !m.first.HighMemory? {
      outcome := if m.first.Accepted? then Nil else Error;
      return;
    }
    Step(marking, log, marked, i, 0, Paused);
    LastOf(log, Paused);
    outcome, log := Retry(marking, i, m.wakes, log + [Paused], marked);
  }

  /** The retry loop, entered with the claim paused. */
  method Retry(marking: Marking, i: nat, wakes: seq<Wake>, before: seq<Effect>, ghost marked: nat)
    returns (outcome: Outcome, log: seq<Effect>)
    requires At(marking, before, marked, i, 1) && Lag(marking, marked, i + 1) && LastResult(before) == HighMemory
    ensures before <= log && outcome == Retried(wakes) && Commits(log) == Commits(before)
    ensures At(marking, log, marked, if outcome.Nil? then i + 1 else i, LeftOver(outcome))
    ensures outcome.Nil? <==> LastResult(log) == Accepted
    ensures outcome.Error? <==> LastResult(log) == Failed
  {
    log := before;
    var k := 0;
    while k < |wakes|
      invariant 0 <= k <= |wakes| && before <= log && Retried(wakes[k..]) == Retried(wakes)
      invariant At(marking, log, marked, i, 1) && LastResult(log) == HighMemory && Commits(log) == Commits(before)
    {
      var wake := wakes[k];
      assert wakes[k..][0] == wake && wakes[k..][1..] == wakes[k + 1..];
      if wake.SessionDone? {
        return EndedWhileRetrying, log;
      }
      Step(marking, log, marked, i, 1, Tried(i, wake.result));
      LastOf(log, Tried(i, wake.result));
      log := log + [Tried(i, wake.result)];
      if !wake.result.HighMemory? {
        Step(marking, log, marked, if wake.result.Accepted? then i + 1 else i, 1, Resumed);
        LastOf(log, Resumed);
        log := log + [Resumed];
        outcome := if wake.result.Accepted? then Nil else Error;
        return;
      }
      k := k + 1;
    }
    return Waiting, log;
  }

  lemma LastOf(log: seq<Effect>, e: Effect)
    ensures LastResult(log + [e]) == if e.Tried? then e.result else LastResult(log)
  {
    assert (log + [e])[..|log|] == log;
  }

  /** The result of the last consume in a log; a log without one counts as failed. */
  function LastResult(log: seq<Effect>): Result {
    if log == [] then Failed
    else if log[|log| - 1].Tried? then log[|log| - 1].result
    else LastResult(log[..|log| - 1])
  }

  // ---- the claim ----

  /** Finished: the channel was closed or the session ended between messages. */
  datatype Ending = Finished | BadMessage | ConsumeError | SessionEnded | Running

  function MarkedAtEnd(marking: Marking, ending: Ending, consumed: nat): nat {
    if ending.Finished? then consumed
    else if ending.Running? then (if marking.after then consumed else consumed + 1)
    else if marking.after && !marking.onError then consumed
    else consumed + 1
  }

  predicate Taken(m: Message) {
    m.decodes && Fate(m).Nil?
  }

  /** How a message that is not taken ends the claim. */
  function EndingOf(m: Message): Ending {
    if !m.decodes then BadMessage
    else if Fate(m).Error? then ConsumeError
    else if Fate(m).Waiting? then Running
    else SessionEnded
  }

  /** The claim stops at the first message that does not decode or is not taken. */
  ghost predicate StopsAt(messages: seq<Message>, n: nat, ending: Ending) {
    && n <= |messages| && (forall i :: 0 <= i < n ==> Taken(messages[i]))
    && (n == |messages| ==> ending.Finished?)
    && (n < |messages| ==> !Taken(messages[n]) && ending == EndingOf(messages[n]))
  }

  function LeftPaused(ending: Ending): nat {
    if ending.SessionEnded? || ending.Running? then 1 else 0
  }

  /** At every point the marked messages and the consumed ones are each a prefix of the claim and in step.
      When the claim ends, as many are marked as consumed, but for the message that failed where messages
      are marked before being consumed or on errors. Only the end of the session leaves a pause behind. */
  method ConsumeClaim(marking: Marking, autocommit: bool, messages: seq<Message>)
    returns (ending: Ending, log: seq<Effect>)
    ensures AlwaysInStep(marking, log)
    ensures StopsAt(messages, |Accepts(log)|, ending)
    ensures |Marks(log)| == MarkedAtEnd(marking, ending, |Accepts(log)|)
    ensures Pauses(log) == Resumes(log) + LeftPaused(ending)
    ensures !autocommit && !ending.Running? ==> log != [] && log[|log| - 1] == Committed
    ensures Commits(log) == if autocommit then 0 else |Accepts(log)| + if ending.Running? then 0 else 1
  {
    log := [];
    assert At(marking, log, 0, 0, 0);
    var i := 0;
    while i < |messages|
      invariant 0 <= i <= |messages| && At(marking, log, i, i, 0)
      invariant forall j :: 0 <= j < i ==> Taken(messages[j])
      invariant Commits(log) == if autocommit then 0 else i
    {
      var taken;
      taken, ending, log := HandleMessage(marking, autocommit, i, messages[i], log);
      if !taken {
        return;
      }
      i := i + 1;
    }
    ending := Finished;
    if !autocommit {
      log := Do(marking, log, i, i, 0, Committed);
    }
  }

  /** One turn of the loop. */
  method HandleMessage(marking: Marking, autocommit: bool, i: nat, m: Message, before: seq<Effect>)
    returns (taken: bool, ending: Ending, log: seq<Effect>)
    requires At(marking, before, i, i, 0)
    ensures taken == Taken(m) && (!taken ==> ending == EndingOf(m))
    ensures taken ==> At(marking, log, i + 1, i + 1, 0)
    ensures !taken ==> At(marking, log, MarkedAtEnd(marking, ending, i), i, LeftPaused(ending))
    ensures !autocommit && (taken || !ending.Running?) ==> log != [] && log[|log| - 1] == Committed
    ensures Commits(log) == Commits(before) + if autocommit || (!taken && ending.Running?) then 0 else 1
  {
    log := before;
    if !marking.after {
      log := Do(marking, log, i, i, 0, Marked(i));
    }
    if m.decodes {
      taken, ending, log := ConsumeMessage(marking, autocommit, i, m, log);
    } else {
      taken, ending := false, BadMessage;
      log := GiveUp(marking, autocommit, i, log, 0);
    }
  }

  /** The turn of a message that decodes. */
  method ConsumeMessage(marking: Marking, autocommit: bool, i: nat, m: Message, before: seq<Effect>)
    returns (taken: bool, ending: Ending, log: seq<Effect>)
    requires m.decodes && At(marking, before, if marking.after then i else i + 1, i, 0)
    ensures taken == Taken(m) && (!taken ==> ending == EndingOf(m))
    ensures taken ==> At(marking, log, i + 1, i + 1, 0)
    ensures !taken ==> At(marking, log, MarkedAtEnd(marking, ending, i), i, LeftPaused(ending))
    ensures !autocommit && (taken || !ending.Running?) ==> log != [] && log[|log| - 1] == Committed
    ensures Commits(log) == Commits(before) + if autocommit || (!taken && ending.Running?) then 0 else 1
  {
    var outcome;
    outcome, log := WithMemoryLimiter(marking, i, m, before, if marking.after then i else i + 1);
    taken, ending := outcome.Nil?, Running;
    if outcome.Nil? {
      log := Settle(marking, autocommit, i, log);
    } else if !outcome.Waiting? {
      ending := if outcome.Error? then ConsumeError else SessionEnded;
      log := GiveUp(marking, autocommit, i, log, if outcome.Error? then 0 else 1);
    }
  }

  /** The end of a turn whose message was taken. */
  method Settle(marking: Marking, autocommit: bool, i: nat, before: seq<Effect>) returns (log: seq<Effect>)
    requires At(marking, before, if marking.after then i else i + 1, i + 1, 0)
    ensures At(marking, log, i + 1, i + 1, 0) && Commits(log) == Commits(before) + if autocommit then 0 else 1
    ensures !autocommit ==> log != [] && log[|log| - 1] == Committed
  {
    log := before;
    if marking.after {
      log := Do(marking, log, i, i + 1, 0, Marked(i));
    }
    if !autocommit {
      log := Do(marking, log, i + 1, i + 1, 0, Committed);
    }
  }

  /** The error path: mark the message if errors are to be marked, and the deferred commit. */
  method GiveUp(marking: Marking, autocommit: bool, i: nat, before: seq<Effect>, ghost paused: nat)
    returns (log: seq<Effect>)
    requires At(marking, before, if marking.after then i else i + 1, i, paused)
    ensures At(marking, log, if marking.after && !marking.onError then i else i + 1, i, paused)
    ensures !autocommit ==> log != [] && log[|log| - 1] == Committed
    ensures Commits(log) == Commits(before) + if autocommit then 0 else 1
  {
    log := before;
    if marking.after && marking.onError {
      log := Do(marking, log, i, i, paused, Marked(i));
    }
    if !autocommit {
      log := Do(marking, log, if marking.after && !marking.onError then i else i + 1, i, paused, Committed);
    }
  }

  method Do(marking: Marking, before: seq<Effect>, ghost marked: nat, ghost consumed: nat, ghost paused: nat, e: Effect)
    returns (log: seq<Effect>)
    requires At(marking, before, marked, consumed, paused) && (e.Marked? || e.Committed?)
    requires e.Marked? ==> e.i == marked && Lag(marking, marked + 1, consumed)
    requires e.Committed? && marking.after && !marking.onError ==> marked == consumed
    ensures log == before + [e] && At(marking, log, if e.Marked? then marked + 1 else marked, consumed, paused)
    ensures Commits(log) == Commits(before) + if e.Committed? then 1 else 0
  {
    Step(marking, before, marked, consumed, paused, e);
    log := before + [e];
  }

  /** With marking after and not on errors, at every point of every claim the marked messages are consumed
      ones, at most the one just consumed is still unmarked, and a commit covers exactly what was consumed. */
  lemma MarkedWasConsumed(log: seq<Effect>, k: nat)
    requires AlwaysInStep(Marking(true, false), log) && k <= |log|
    ensures Marks(log[..k]) <= Accepts(log[..k]) && |Accepts(log[..k])| <= |Marks(log[..k])| + 1
    ensures k > 0 && log[k - 1] == Committed ==> Marks(log[..k]) == Accepts(log[..k])
    ensures forall i :: 0 <= i < |Accepts(log[..k])| ==> Accepts(log[..k])[i] == i
  {
    assert InStep(Marking(true, false), log[..k]);
    PrefixesNest(|Marks(log[..k])|, |Accepts(log[..k])|);
    if k > 0 {
      assert log[..k][k - 1] == log[k - 1];
    }
  }

  lemma PrefixesNest(m: nat, n: nat)
    requires m <= n
    ensures Prefix(m) <= Prefix(n)
  {
    assert Prefix(n)[..m] == Prefix(m);
  }
}
