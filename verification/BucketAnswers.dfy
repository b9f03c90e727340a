/**
 What Plan answers in an interleaving (pkg/timebucketedset/time_bucketed_set.go:77-146), told by the ids the live
 buckets hold at the steps where the call looks at them, and how long a registration lasts
 (pkg/timebucketedset/time_bucketed_set.go:108-128).
 */
module BucketAnswers {
  import opened Options
  import opened TimeBuckets
  import opened BucketSpec
  import opened BucketSet
  import opened BucketInterleaving

  // ---- no call looks too far ahead ----

  ghost predicate InReach(p: Params, th: Thread)
    requires p.Valid()
  {
    th.Planning? && !th.pc.Answered? ==>
      && (th.pc.stage.Next? || !th.pc.Lookup? ==> !TooFarAhead(p, th.start, th.now))
      && (th.pc.stage.Next? && !th.pc.Lookup? ==> !TooFarAhead(p, th.start + p.width, th.now))
  }

  lemma InReachStep(p: Params, s: State, a: Action, t: Tid)
    requires p.Valid() && Enabled(p, s, a) && InReach(p, s.Of(t))
    ensures InReach(p, Apply(p, s, a).Of(t))
  {
    if a.Forget? || a.t != t {
      assert Apply(p, s, a).Of(t) == s.Of(t);
    } else if !a.Look? && !a.Check? {
      OtherReach(p, s, a);
    }
  }

  lemma OtherReach(p: Params, s: State, a: Action)
    requires p.Valid() && Enabled(p, s, a) && !a.Forget? && !a.Look? && !a.Check? && InReach(p, s.Of(a.t))
    ensures InReach(p, Apply(p, s, a).Of(a.t))
  {
  }

  lemma {:induction false} RunInReach(p: Params, actions: seq<Action>, t: Tid)
    requires p.Valid() && CanRun(p, actions)
    ensures InReach(p, Run(p, actions).Of(t))
  {
    if actions != [] {
      var n := |actions| - 1;
      RunInReach(p, actions[..n], t);
      InReachStep(p, Run(p, actions[..n]), actions[n], t);
    }
  }

  // ---- the step at which a call answers ----

  predicate SameCall(a: Thread, b: Thread) {
    a.Planning? && b.Planning? && a.id == b.id && a.start == b.start && a.now == b.now
  }

  /** What a step with this bucket map makes of a call that answers in it. */
  ghost predicate AnswersBy(p: Params, live: Live, me: Thread, answer: Answer)
    requires p.Valid() && me.Planning? && !me.pc.Answered?
  {
    var next := me.start + p.width;
    if me.pc.stage.Current? then
      var held := me.start <= BucketStart(p.width, me.now) + p.width && me.start in live && me.id in live[me.start];
      answer == Answer(!held, false) && (held ==> !Eligible(p, me.id, me.start, me.now))
    else
      && Eligible(p, me.id, me.start, me.now)
      && answer == Answer(false, me.start <= BucketStart(p.width, me.now) && next in live && me.id !in live[next])
  }

  /** The step of the answer; live is the map it looks at. */
  lemma AnswerStep(p: Params, s: State, a: Action)
    requires p.Valid() && StoreInv(p, s) && Enabled(p, s, a) && !a.Forget? && ThreadInv(p, s, a.t)
    requires InReach(p, s.Of(a.t)) && s.Of(a.t).Planning? && !s.Of(a.t).pc.Answered?
    requires Apply(p, s, a).Of(a.t).Planning? && Apply(p, s, a).Of(a.t).pc.Answered?
    ensures SameCall(s.Of(a.t), Apply(p, s, a).Of(a.t))
    ensures AnswersBy(p, s.live, s.Of(a.t), Apply(p, s, a).Of(a.t).pc.answer)
  {
    match a {
      case Check(t) => CheckAnswers(p, s, t);
      case Look(t) => LookAnswers(p, s, t);
      case LookAgain(t) => LookAgainAnswers(p, s, t);
      case _ =>
        assert false;
    }
  }

  lemma CheckAnswers(p: Params, s: State, t: Tid)
    requires p.Valid() && StoreInv(p, s) && Enabled(p, s, Check(t)) && ThreadInv(p, s, t) && InReach(p, s.Of(t))
    requires Apply(p, s, Check(t)).Of(t).pc.Answered?
    ensures SameCall(s.Of(t), Apply(p, s, Check(t)).Of(t))
    ensures AnswersBy(p, s.live, s.Of(t), Apply(p, s, Check(t)).Of(t).pc.answer)
  {
    var th := s.Of(t);
    assert s.store.caches[th.pc.cache] == s.live[Target(p, th, th.pc.stage)];
  }

  lemma LookAnswers(p: Params, s: State, t: Tid)
    requires p.Valid() && Enabled(p, s, Look(t)) && ThreadInv(p, s, t)
    requires Apply(p, s, Look(t)).Of(t).pc.Answered?
    ensures SameCall(s.Of(t), Apply(p, s, Look(t)).Of(t))
    ensures AnswersBy(p, s.live, s.Of(t), Apply(p, s, Look(t)).Of(t).pc.answer)
  {
  }

  lemma LookAgainAnswers(p: Params, s: State, t: Tid)
    requires p.Valid() && StoreInv(p, s) && Enabled(p, s, LookAgain(t)) && ThreadInv(p, s, t)
    requires Apply(p, s, LookAgain(t)).Of(t).pc.Answered?
    ensures SameCall(s.Of(t), Apply(p, s, LookAgain(t)).Of(t))
    ensures AnswersBy(p, s.live, s.Of(t), Apply(p, s, LookAgain(t)).Of(t).pc.answer)
  {
    assert s.store.buckets.Keys == s.live.Keys;
  }

  // ---- the steps of one call ----

  /** Action j is the call's look at its own bucket, which is live and holds the id. */
  ghost predicate FoundAt(p: Params, actions: seq<Action>, j: nat, t: Tid, th: Thread)
    requires p.Valid()
  {
    && j < |actions| && actions[j] == Check(t) && CanRun(p, actions[..j])
    && var s := Run(p, actions[..j]);
       SameCall(s.Of(t), th) && th.start in s.live && th.id in s.live[th.start]
  }

  /** Action k makes the call answer, with what the live buckets hold then. */
  ghost predicate AnsweredAt(p: Params, actions: seq<Action>, k: nat, t: Tid, th: Thread)
    requires p.Valid()
  {
    && k < |actions| && !actions[k].Forget? && actions[k].t == t && CanRun(p, actions[..k])
    && th.Planning? && th.pc.Answered?
    && var s := Run(p, actions[..k]);
       && SameCall(s.Of(t), th) && !s.Of(t).pc.Answered? && AnswersBy(p, s.live, s.Of(t), th.pc.answer)
       && (s.Of(t).pc.stage.Next? ==> exists j: nat :: j < k && FoundAt(p, actions, j, t, th))
  }

  lemma FoundBefore(p: Params, actions: seq<Action>, n: nat, j: nat, t: Tid, th: Thread)
    requires p.Valid() && n <= |actions| && FoundAt(p, actions[..n], j, t, th)
    ensures FoundAt(p, actions, j, t, th) && j < n
  {
    assert actions[..n][..j] == actions[..j];
  }

  lemma BystanderStays(p: Params, s: State, a: Action, t: Tid)
    requires p.Valid() && Enabled(p, s, a) && (a.Forget? || a.t != t)
    ensures Apply(p, s, a).Of(t) == s.Of(t)
  {
  }

  predicate PastItsOwn(th: Thread) {
    th.Planning? && !th.pc.Answered? && th.pc.stage.Next?
  }

  lemma CheckGoesOn(p: Params, s: State, t: Tid)
    requires p.Valid() && StoreInv(p, s) && Enabled(p, s, Check(t)) && ThreadInv(p, s, t)
    requires PastItsOwn(Apply(p, s, Check(t)).Of(t))
    ensures SameCall(s.Of(t), Apply(p, s, Check(t)).Of(t))
    ensures !s.Of(t).pc.stage.Next? ==> s.Of(t).start in s.live && s.Of(t).id in s.live[s.Of(t).start]
  {
    var th := s.Of(t);
    assert s.store.caches[th.pc.cache] == s.live[Target(p, th, th.pc.stage)];
  }

  lemma OtherGoesOn(p: Params, s: State, a: Action)
    requires p.Valid() && Enabled(p, s, a) && !a.Forget? && !a.Check? && PastItsOwn(Apply(p, s, a).Of(a.t))
    ensures SameCall(s.Of(a.t), Apply(p, s, a).Of(a.t)) && PastItsOwn(s.Of(a.t))
  {
  }

  ghost predicate JustFound(s: State, a: Action, t: Tid) {
    && a == Check(t) && s.Of(t).Planning?
    && s.Of(t).start in s.live && s.Of(t).id in s.live[s.Of(t).start]
  }

  /** A step that puts a call past its own bucket has just found its id there. */
  lemma NextStageStep(p: Params, s: State, a: Action, t: Tid, after: Thread)
    requires p.Valid() && StoreInv(p, s) && Enabled(p, s, a) && ThreadInv(p, s, t)
    requires after == Apply(p, s, a).Of(t) && PastItsOwn(after)
    ensures SameCall(s.Of(t), after) && (PastItsOwn(s.Of(t)) || JustFound(s, a, t))
  {
    if a.Forget? || a.t != t {
      BystanderStays(p, s, a, t);
    } else if a.Check? {
      CheckGoesOn(p, s, t);
    } else {
      OtherGoesOn(p, s, a);
    }
  }

  lemma {:induction false} NextStageFound(p: Params, actions: seq<Action>, t: Tid) returns (j: nat)
    requires p.Valid() && CanRun(p, actions)
    requires PastItsOwn(Run(p, actions).Of(t))
    ensures FoundAt(p, actions, j, t, Run(p, actions).Of(t))
  {
    assert actions != [];
    var n := |actions| - 1;
    var s := Run(p, actions[..n]);
    RunKeepsInv(p, actions[..n]);
    assert ThreadInv(p, s, t);
    NextStageStep(p, s, actions[n], t, Run(p, actions).Of(t));
    if PastItsOwn(s.Of(t)) {
      j := NextStageFound(p, actions[..n], t);
      FoundBefore(p, actions, n, j, t, s.Of(t));
    } else {
      j := n;
    }
  }

  lemma AnsweredBefore(p: Params, actions: seq<Action>, n: nat, k: nat, t: Tid, th: Thread)
    requires p.Valid() && n <= |actions| && AnsweredAt(p, actions[..n], k, t, th)
    ensures AnsweredAt(p, actions, k, t, th)
  {
    assert actions[..n][..k] == actions[..k];
    if Run(p, actions[..k]).Of(t).pc.stage.Next? {
      var j: nat :| j < k && FoundAt(p, actions[..n], j, t, th);
      FoundBefore(p, actions, n, j, t, th);
    }
  }

  lemma AnsweredNow(p: Params, actions: seq<Action>, n: nat, t: Tid, s: State, th: Thread)
    requires p.Valid() && n < |actions| && CanRun(p, actions[..n]) && s == Run(p, actions[..n])
    requires Enabled(p, s, actions[n]) && !actions[n].Forget? && actions[n].t == t
    requires s.Of(t).Planning? && !s.Of(t).pc.Answered?
    requires th == Apply(p, s, actions[n]).Of(t) && th.Planning? && th.pc.Answered?
    ensures AnsweredAt(p, actions, n, t, th)
  {
    AnswerFacts(p, actions[..n], actions[n], t, s);
    if s.Of(t).pc.stage.Next? {
      var j := NextStageFound(p, actions[..n], t);
      FoundBefore(p, actions, n, j, t, s.Of(t));
      assert FoundAt(p, actions, j, t, th);
    }
  }

  lemma AnswerFacts(p: Params, front: seq<Action>, a: Action, t: Tid, s: State)
    requires p.Valid() && CanRun(p, front) && s == Run(p, front)
    requires Enabled(p, s, a) && !a.Forget? && a.t == t
    requires s.Of(t).Planning? && !s.Of(t).pc.Answered?
    requires Apply(p, s, a).Of(t).Planning? && Apply(p, s, a).Of(t).pc.Answered?
    ensures SameCall(s.Of(t), Apply(p, s, a).Of(t))
    ensures AnswersBy(p, s.live, s.Of(t), Apply(p, s, a).Of(t).pc.answer)
  {
    RunKeepsInv(p, front);
    assert ThreadInv(p, s, t);
    RunInReach(p, front, t);
    AnswerStep(p, s, a);
  }

  lemma AnsweredStep(p: Params, s: State, a: Action, t: Tid)
    requires p.Valid() && Enabled(p, s, a)
    requires Apply(p, s, a).Of(t).Planning? && Apply(p, s, a).Of(t).pc.Answered?
    ensures s.Of(t).Planning?
    ensures s.Of(t).pc.Answered? ==> Apply(p, s, a).Of(t) == s.Of(t)
    ensures !s.Of(t).pc.Answered? ==> !a.Forget? && a.t == t
  {
    if a.Forget? || a.t != t {
      assert Apply(p, s, a).Of(t) == s.Of(t);
    }
  }

  /** In every interleaving a call answers by what the live buckets hold at the steps where it looks at them.
      Answering for its own bucket, it asks to register unless that bucket is near enough, live and holds the id,
      and never for the next one. Answering for the next bucket, it is eligible and has found its id in its own
      bucket before, and it asks to pre-write exactly if the next bucket is near enough, live and does not hold
      the id. */
  lemma {:induction false} AnswersExactly(p: Params, actions: seq<Action>, t: Tid)
    requires p.Valid() && CanRun(p, actions)
    requires Run(p, actions).Of(t).Planning? && Run(p, actions).Of(t).pc.Answered?
    ensures exists k: nat :: AnsweredAt(p, actions, k, t, Run(p, actions).Of(t))
  {
    assert actions != [];
    var n := |actions| - 1;
    var s := Run(p, actions[..n]);
    AnsweredStep(p, s, actions[n], t);
    if s.Of(t).pc.Answered? {
      AnswersExactly(p, actions[..n], t);
      var k: nat :| AnsweredAt(p, actions[..n], k, t, s.Of(t));
      AnsweredBefore(p, actions, n, k, t, s.Of(t));
      assert AnsweredAt(p, actions, k, t, Run(p, actions).Of(t));
    } else {
      AnsweredNow(p, actions, n, t, s, Run(p, actions).Of(t));
      assert AnsweredAt(p, actions, n, t, Run(p, actions).Of(t));
    }
  }

  // ---- how long a registration lasts ----

  /** The action makes the cache of start forget the id. */
  predicate ForgetsId(a: Action, id: Id, start: Millis) {
    || (a.Forget? && a.start == start && id in a.ids)
    || (a.ApplyRowStep? && a.row.start == start && id in a.row.forgotten)
  }

  lemma HeldStep(p: Params, s: State, a: Action, id: Id, start: Millis)
    requires p.Valid() && StoreInv(p, s) && Enabled(p, s, a) && !ForgetsId(a, id, start)
    requires start in s.live && start in Apply(p, s, a).live
    requires id in s.live[start] || (a.ApplyRowStep? && a.row.id == id && a.row.start == start)
    ensures id in Apply(p, s, a).live[start]
  {
    if !a.CreateAndUnlock? && !a.ApplyRowStep? && !a.Forget? {
      QuietStep(p, s, a);
    }
  }

  lemma LiveThroughout(p: Params, actions: seq<Action>, n: nat, start: Millis)
    requires p.Valid() && CanRun(p, actions) && n <= |actions| && CanRun(p, actions[..n])
    requires start in Run(p, actions[..n]).seen && start in Run(p, actions).live
    ensures start in Run(p, actions[..n]).live
  {
    RunKeepsInv(p, actions);
    RunKeepsInv(p, actions[..n]);
    if start !in Run(p, actions[..n]).live {
      EvictedBucketNeverReturns(p, actions, n, start);
    }
  }

  lemma SeenByThen(p: Params, actions: seq<Action>, i: nat, start: Millis)
    requires p.Valid() && CanRun(p, actions) && i <= |actions| && CanRun(p, actions[..i])
    requires start in Run(p, actions[..i]).live
    ensures start in Run(p, actions).seen
  {
    RunKeepsInv(p, actions[..i]);
    SeenGrows(p, actions, i);
  }

  lemma StillLive(p: Params, actions: seq<Action>, n: nat, i: nat, start: Millis)
    requires p.Valid() && CanRun(p, actions) && i <= n <= |actions| && CanRun(p, actions[..n])
    requires CanRun(p, actions[..i]) && start in Run(p, actions[..i]).live && start in Run(p, actions).live
    ensures start in Run(p, actions[..n]).live
  {
    assert actions[..n][..i] == actions[..i];
    SeenByThen(p, actions[..n], i, start);
    LiveThroughout(p, actions, n, start);
  }

  /** In every interleaving an id applied to a live bucket is held by it for as long as the bucket is live and its
      cache does not forget the id. */
  lemma {:induction false} AppliedIdIsHeld(p: Params, actions: seq<Action>, i: nat, id: Id, start: Millis)
    requires p.Valid() && CanRun(p, actions) && AppliesAt(p, actions, i, id, start)
    requires forall k :: i <= k < |actions| ==> !ForgetsId(actions[k], id, start)
    requires start in Run(p, actions).live
    ensures id in Run(p, actions).live[start]
  {
    var n := |actions| - 1;
    StillLive(p, actions, n, i, start);
    if i < n {
      AppliesBefore(p, actions, n, i, id, start);
      AppliedIdIsHeld(p, actions[..n], i, id, start);
    }
    HeldNext(p, actions, n, id, start);
  }

  lemma AppliesBefore(p: Params, actions: seq<Action>, n: nat, i: nat, id: Id, start: Millis)
    requires p.Valid() && i < n <= |actions| && AppliesAt(p, actions, i, id, start)
    ensures AppliesAt(p, actions[..n], i, id, start)
  {
    assert actions[..n][..i] == actions[..i];
  }

  lemma HeldNext(p: Params, actions: seq<Action>, n: nat, id: Id, start: Millis)
    requires p.Valid() && CanRun(p, actions) && n + 1 == |actions| && !ForgetsId(actions[n], id, start)
    requires start in Run(p, actions[..n]).live && start in Run(p, actions).live
    requires id in Run(p, actions[..n]).live[start] || AppliesAt(p, actions, n, id, start)
    ensures id in Run(p, actions).live[start]
  {
    HeldNow(p, actions[..n], Run(p, actions[..n]), actions[n], id, start);
  }

  lemma HeldNow(p: Params, front: seq<Action>, s: State, a: Action, id: Id, start: Millis)
    requires p.Valid() && CanRun(p, front) && s == Run(p, front) && Enabled(p, s, a) && !ForgetsId(a, id, start)
    requires start in s.live && start in Apply(p, s, a).live
    requires id in s.live[start] || (a.ApplyRowStep? && a.row.id == id && a.row.start == start)
    ensures id in Apply(p, s, a).live[start]
  {
    RunKeepsInv(p, front);
    HeldStep(p, s, a, id, start);
  }
}
