/**
 The fingerprints that concurrent log producers share (exporter/clickhouselogsexporter/exporter.go:168-198):
 a map of maps in which two producers may create a fingerprint for the same resource at the same time.
 Each operation on a sync.Map is one step.
 */
module ResourcesSeen {

  type Bucket = nat
  type Handle = nat  // an inner map, by position in State.inner

  datatype Caller =
    | Idle
    | Opening(bucket: Bucket, resource: string)
    | Loading(bucket: Bucket, resource: string, handle: Handle)
    | Storing(bucket: Bucket, resource: string, handle: Handle, fingerprint: string)

  datatype Entry = Entry(bucket: Bucket, resource: string, fingerprint: string)

  /** created and returned are history. */
  datatype State = State(
    buckets: map<Bucket, Handle>,
    inner: seq<map<string, string>>,
    callers: seq<Caller>,
    created: set<Entry>,
    returned: set<Entry>)

  datatype Action =
    | Begin(c: nat, bucket: Bucket, resource: string)
    | Open(c: nat)
    | Load(c: nat, candidate: string)
    | LoadOrStore(c: nat)

  function Init(callers: nat): State {
    State(map[], [], seq(callers, _ => Idle), {}, {})
  }

  predicate Enabled(s: State, a: Action) {
    && a.c < |s.callers|
    && match a
       case Begin(c, _, _) => s.callers[c].Idle?
       case Open(c) => s.callers[c].Opening?
       case Load(c, _) => s.callers[c].Loading? && s.callers[c].handle < |s.inner|
       case LoadOrStore(c) => s.callers[c].Storing? && s.callers[c].handle < |s.inner|
  }

  function With(s: State, c: nat, me: Caller): State
    requires c < |s.callers|
  {
    s.(callers := s.callers[c := me])
  }

  /** candidate is what createFn would come up with. */
  function Next(s: State, a: Action): State
    requires Enabled(s, a)
  {
    match a
    case Begin(c, bucket, resource) => With(s, c, Opening(bucket, resource))
    case Open(c) =>
      var me := s.callers[c];
      if me.bucket in s.buckets then With(s, c, Loading(me.bucket, me.resource, s.buckets[me.bucket]))
      else
        With(s, c, Loading(me.bucket, me.resource, |s.inner|)).(
          buckets := s.buckets[me.bucket := |s.inner|], inner := s.inner + [map[]])
    case Load(c, candidate) =>
      var me := s.callers[c];
      var m := s.inner[me.handle];
      if me.resource in m then
        With(s, c, Idle).(returned := s.returned + {Entry(me.bucket, me.resource, m[me.resource])})
      else
        With(s, c, Storing(me.bucket, me.resource, me.handle, candidate)).(
          created := s.created + {Entry(me.bucket, me.resource, candidate)})
    case LoadOrStore(c) =>
      var me := s.callers[c];
      var m := s.inner[me.handle];
      if me.resource in m then
        With(s, c, Idle).(returned := s.returned + {Entry(me.bucket, me.resource, m[me.resource])})
      else
        With(s, c, Idle).(
          inner := s.inner[me.handle := m[me.resource := me.fingerprint]],
          returned := s.returned + {Entry(me.bucket, me.resource, me.fingerprint)})
  }

  // ---- the invariant ----

  ghost predicate CallerOk(s: State, c: nat)
    requires c < |s.callers|
  {
    var me := s.callers[c];
    && (me.Loading? || me.Storing? ==> me.bucket in s.buckets && s.buckets[me.bucket] == me.handle)
    && (me.Storing? ==> Entry(me.bucket, me.resource, me.fingerprint) in s.created)
  }

  /** Buckets have inner maps of their own. */
  ghost predicate Apart(s: State) {
    && (forall b :: b in s.buckets ==> s.buckets[b] < |s.inner|)
    && (forall b, d :: b in s.buckets && d in s.buckets && b != d ==> s.buckets[b] != s.buckets[d])
  }

  predicate Stored(s: State, e: Entry) {
    && e.bucket in s.buckets && s.buckets[e.bucket] < |s.inner|
    && e.resource in s.inner[s.buckets[e.bucket]] && s.inner[s.buckets[e.bucket]][e.resource] == e.fingerprint
  }

  ghost predicate Inv(s: State) {
    && Apart(s)
    && (forall c: nat :: c < |s.callers| ==> CallerOk(s, c))
    && (forall e :: e in s.returned ==> Stored(s, e))
    && (forall e :: Stored(s, e) ==> e in s.created)
  }

  /** Steps that leave the maps alone. */
  lemma QuietStep(s: State, t: State, c: nat)
    requires Inv(s) && c < |s.callers| == |t.callers| && t.callers == s.callers[c := t.callers[c]] && CallerOk(t, c)
    requires t.buckets == s.buckets && t.inner == s.inner && s.created <= t.created
    requires forall e :: e in t.returned ==> e in s.returned || Stored(s, e)
    ensures Inv(t)
  {
    forall d: nat | d < |t.callers| ensures CallerOk(t, d) {
      assert CallerOk(s, d);
    }
    forall e ensures Stored(t, e) <==> Stored(s, e) {
    }
  }

  lemma OpenStep(s: State, c: nat)
    requires Inv(s) && Enabled(s, Open(c))
    ensures Inv(Next(s, Open(c)))
  {
    var t := Next(s, Open(c));
    if s.callers[c].bucket in s.buckets {
      QuietStep(s, t, c);
    } else {
      forall d: nat | d < |t.callers| ensures CallerOk(t, d) {
        assert CallerOk(s, d);
      }
      forall e ensures Stored(t, e) <==> Stored(s, e) {
      }
    }
  }

  lemma StoreStep(s: State, c: nat)
    requires Inv(s) && Enabled(s, LoadOrStore(c))
    ensures Inv(Next(s, LoadOrStore(c)))
  {
    var t := Next(s, LoadOrStore(c));
    var me := s.callers[c];
    assert CallerOk(s, c);
    if me.resource in s.inner[me.handle] {
      QuietStep(s, t, c);
    } else {
      forall d: nat | d < |t.callers| ensures CallerOk(t, d) {
        assert CallerOk(s, d);
      }
      forall e ensures Stored(t, e) <==> Stored(s, e) || e == Entry(me.bucket, me.resource, me.fingerprint) {
      }
    }
  }

  lemma InvStep(s: State, a: Action)
    requires Inv(s) && Enabled(s, a)
    ensures Inv(Next(s, a)) && |Next(s, a).callers| == |s.callers|
  {
    match a {
      case Begin(c, _, _) => QuietStep(s, Next(s, a), c);
      case Open(c) => OpenStep(s, c);
      case Load(c, _) =>
        assert CallerOk(s, c);
        QuietStep(s, Next(s, a), c);
      case LoadOrStore(c) => StoreStep(s, c);
    }
  }

  // ---- runs ----

  ghost predicate CanRun(callers: nat, actions: seq<Action>)
    decreases |actions|, 0
  {
    actions != [] ==>
      var n := |actions| - 1;
      CanRun(callers, actions[..n]) && Enabled(Run(callers, actions[..n]), actions[n])
  }

  ghost function Run(callers: nat, actions: seq<Action>): State
    requires CanRun(callers, actions)
    decreases |actions|, 1
  {
    if actions == [] then Init(callers)
    else Next(Run(callers, actions[..|actions| - 1]), actions[|actions| - 1])
  }

  lemma {:induction false} RunKeepsInv(callers: nat, actions: seq<Action>)
    requires CanRun(callers, actions)
    ensures Inv(Run(callers, actions))
  {
    if actions != [] {
      var n := |actions| - 1;
      RunKeepsInv(callers, actions[..n]);
      InvStep(Run(callers, actions[..n]), actions[n]);
    }
  }

  /** However the producers interleave, all of them get the same fingerprint for a resource in a bucket,
      and it is one that was created for that resource and bucket. */
  lemma EveryoneGetsTheSameFingerprint(callers: nat, actions: seq<Action>, a: Entry, b: Entry)
    requires CanRun(callers, actions) && a in Run(callers, actions).returned && b in Run(callers, actions).returned
    requires a.bucket == b.bucket && a.resource == b.resource
    ensures a.fingerprint == b.fingerprint && a in Run(callers, actions).created
  {
    RunKeepsInv(callers, actions);
    assert Stored(Run(callers, actions), a) && Stored(Run(callers, actions), b);
  }
}
