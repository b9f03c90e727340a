/**
 The overflow caps of the span metrics processor are as low as they can be
 (processor/signozspanmetricsprocessor/processor.go:969-1005, 1260-1288): for every limit a run of spans reaches
 them. A span builds two or three named keys, each of which may track one name.
 */
module SpanMetricsCaps {
  import opened DimensionCache
  import opened Options
  import opened SpanMetrics

  // ---- one capped set of names ----

  /** One more name, or the overflow name once more than max are there. */
  function Put(max: nat, overflow: string, names: set<string>, name: string): set<string> {
    names + {if |names| > max then overflow else name}
  }

  // ---- enough different names ----

  function Name(n: nat): string {
    seq(n, _ => 'a')
  }

  function NamesBelow(n: nat): set<string> {
    if n == 0 then {} else NamesBelow(n - 1) + {Name(n - 1)}
  }

  lemma {:induction false} NamesAreDistinct(n: nat)
    ensures |NamesBelow(n)| == n
    ensures forall s :: s in NamesBelow(n) ==> |s| < n && (s != [] ==> s[0] == 'a')
  {
    if n > 0 {
      NamesAreDistinct(n - 1);
      assert Name(n - 1) !in NamesBelow(n - 1);
    }
  }

  /** The names there are after a run of spans with the first n names, each put at least twice. */
  ghost predicate Filled(max: nat, overflow: string, n: nat, names: set<string>) {
    if n <= max then names == NamesBelow(n) else names == NamesBelow(n) + {overflow}
  }

  predicate Marker(overflow: string) {
    overflow != [] && overflow[0] != 'a'
  }

  lemma FillTwice(max: nat, overflow: string, n: nat, names: set<string>)
    requires n <= max && names == NamesBelow(n) && Marker(overflow)
    ensures Filled(max, overflow, n + 1, Put(max, overflow, Put(max, overflow, names, Name(n)), Name(n)))
  {
    NamesAreDistinct(n);
    NamesAreDistinct(n + 1);
    assert Put(max, overflow, names, Name(n)) == NamesBelow(n + 1);
  }

  lemma FillAgain(max: nat, overflow: string, n: nat, names: set<string>)
    requires n <= max && Filled(max, overflow, n + 1, names) && Marker(overflow)
    ensures Put(max, overflow, names, Name(n)) == names
  {
    NamesAreDistinct(n + 1);
  }

  lemma FilledSize(max: nat, overflow: string, names: set<string>)
    requires Filled(max, overflow, max + 1, names) && Marker(overflow)
    ensures |names| == max + 2
  {
    NamesAreDistinct(max + 1);
  }

  // ---- what a span does to the tracker ----

  function SpanOf(service: string, name: string): Span {
    Span(false, service, name, Other, 0, 0, "", "", "", "", None, "", false, "")
  }

  lemma AddedNames(s: State, span: Span)
    ensures AddLatency(s, span).config == AddExp(s, span).config == AddCall(s, span).config == s.config
    ensures AddLatency(s, span).tracker == Track(s.config, s.tracker, span.service, span.name)
    ensures AddCall(s, span).tracker == Track(s.config, s.tracker, span.service, span.name)
    ensures AddExp(s, span).tracker
            == if s.config.expEnabled then Track(s.config, s.tracker, span.service, span.name) else s.tracker
  {
  }

  lemma AddedCustom(s: State, span: Span)
    ensures AddExternal(s, span).config == AddDb(s, span).config == s.config
    ensures AddExternal(s, span).tracker == AddDb(s, span).tracker == s.tracker
  {
  }

  function TrackSpan(config: Config, tracker: Tracker, span: Span): Tracker {
    Track(config, tracker, span.service, span.name)
  }

  /** A span tracks its name once for each named key it builds. */
  lemma SpanTracks(s: State, span: Span)
    requires !span.skip
    ensures Aggregate(s, span).config == s.config
    ensures var twice := TrackSpan(s.config, TrackSpan(s.config, s.tracker, span), span);
            Aggregate(s, span).tracker == if s.config.expEnabled then TrackSpan(s.config, twice, span) else twice
  {
    AddedNames(s, span);
    var s1 := AddLatency(s, span);
    AddedNames(s1, span);
    var s2 := AddExp(s1, span);
    AddedNames(s2, span);
    var s3 := AddCall(s2, span);
    AddedCustom(s3, span);
    AddedCustom(AddExternal(s3, span), span);
    assert Aggregate(s, span) == AddDb(AddExternal(s3, span), span);
  }

  lemma TrackedService(config: Config, tracker: Tracker, span: Span, overflow: string)
    requires overflow == OVERFLOW_SERVICE
    ensures TrackSpan(config, tracker, span).Keys == Put(config.maxServices, overflow, tracker.Keys, span.service)
  {
    assert |tracker| == |tracker.Keys|;
  }

  lemma TrackedOperation(config: Config, tracker: Tracker, span: Span, overflow: string)
    requires span.service == OVERFLOW_SERVICE && overflow == OVERFLOW_OPERATION
    ensures Operations(TrackSpan(config, tracker, span), span.service)
            == Put(config.maxOperations, overflow, Operations(tracker, span.service), span.name)
  {
  }

  // ---- runs that reach the caps ----

  ghost predicate After(config: Config, events: seq<Event>, s: State) {
    CanRun(config, events) && Run(config, events).state == s && s.config == config
  }

  lemma Receive(config: Config, events: seq<Event>, s: State, span: Span) returns (longer: seq<Event>, s': State)
    requires After(config, events, s) && !span.skip
    ensures After(config, longer, s') && s' == Aggregate(s, span)
  {
    longer, s' := events + [Arrive(span)], Aggregate(s, span);
    assert longer[..|events|] == events;
    SpanTracks(s, span);
  }

  lemma FillServices(s: State, n: nat, span: Span, overflow: string)
    requires overflow == OVERFLOW_SERVICE
    requires n <= s.config.maxServices && Filled(s.config.maxServices, overflow, n, s.tracker.Keys)
    requires !span.skip && span.service == Name(n)
    ensures Filled(s.config.maxServices, overflow, n + 1, Aggregate(s, span).tracker.Keys)
  {
    SpanTracks(s, span);
    var once := TrackSpan(s.config, s.tracker, span);
    var twice := TrackSpan(s.config, once, span);
    TrackedService(s.config, s.tracker, span, overflow);
    TrackedService(s.config, once, span, overflow);
    TrackedService(s.config, twice, span, overflow);
    FillTwice(s.config.maxServices, overflow, n, s.tracker.Keys);
    FillAgain(s.config.maxServices, overflow, n, twice.Keys);
  }

  lemma FillOperations(s: State, n: nat, span: Span, overflow: string)
    requires overflow == OVERFLOW_OPERATION
    requires n <= s.config.maxOperations && span.service == OVERFLOW_SERVICE
    requires Filled(s.config.maxOperations, overflow, n, Operations(s.tracker, span.service))
    requires !span.skip && span.name == Name(n)
    ensures Filled(s.config.maxOperations, overflow, n + 1, Operations(Aggregate(s, span).tracker, span.service))
  {
    SpanTracks(s, span);
    var once := TrackSpan(s.config, s.tracker, span);
    var twice := TrackSpan(s.config, once, span);
    TrackedOperation(s.config, s.tracker, span, overflow);
    TrackedOperation(s.config, once, span, overflow);
    TrackedOperation(s.config, twice, span, overflow);
    FillTwice(s.config.maxOperations, overflow, n, Operations(s.tracker, span.service));
    FillAgain(s.config.maxOperations, overflow, n, Operations(twice, span.service));
  }

  lemma NothingYet(config: Config, events: seq<Event>) returns (s: State)
    requires events == []
    ensures After(config, events, s) && s.tracker == map[]
  {
    s := Start(config).state;
  }

  lemma OneMoreService(config: Config, events: seq<Event>, s: State, n: nat, overflow: string, span: Span)
    returns (longer: seq<Event>, s': State)
    requires overflow == OVERFLOW_SERVICE && n <= config.maxServices && After(config, events, s)
    requires Filled(config.maxServices, overflow, n, s.tracker.Keys) && !span.skip && span.service == Name(n)
    ensures After(config, longer, s') && Filled(config.maxServices, overflow, n + 1, s'.tracker.Keys)
  {
    FillServices(s, n, span, overflow);
    longer, s' := Receive(config, events, s, span);
  }

  /** Spans of the first n services fill the tracker. */
  lemma {:induction false} ServiceRun(config: Config, n: nat, overflow: string) returns (events: seq<Event>, s: State)
    requires overflow == OVERFLOW_SERVICE && n <= config.maxServices + 1
    ensures After(config, events, s) && Filled(config.maxServices, overflow, n, s.tracker.Keys)
  {
    if n == 0 {
      events := [];
      s := NothingYet(config, events);
    } else {
      events, s := ServiceRun(config, n - 1, overflow);
      var span := SpanOf(Name(n - 1), overflow);
      events, s := OneMoreService(config, events, s, n - 1, overflow, span);
    }
  }

  lemma OneMoreOperation(config: Config, events: seq<Event>, s: State, n: nat, overflow: string, span: Span)
    returns (longer: seq<Event>, s': State)
    requires overflow == OVERFLOW_OPERATION && n <= config.maxOperations && After(config, events, s)
    requires !span.skip && span.name == Name(n) && span.service == OVERFLOW_SERVICE
    requires Filled(config.maxOperations, overflow, n, Operations(s.tracker, span.service))
    ensures After(config, longer, s')
    ensures Filled(config.maxOperations, overflow, n + 1, Operations(s'.tracker, span.service))
  {
    FillOperations(s, n, span, overflow);
    longer, s' := Receive(config, events, s, span);
  }

  /** Spans of one service with the first n operations fill its part of the tracker. */
  lemma {:induction false} OperationRun(config: Config, service: string, n: nat, overflow: string)
    returns (events: seq<Event>, s: State)
    requires service == OVERFLOW_SERVICE && overflow == OVERFLOW_OPERATION && n <= config.maxOperations + 1
    ensures After(config, events, s)
    ensures Filled(config.maxOperations, overflow, n, Operations(s.tracker, service))
  {
    if n == 0 {
      events := [];
      s := NothingYet(config, events);
    } else {
      events, s := OperationRun(config, service, n - 1, overflow);
      var span := SpanOf(service, Name(n - 1));
      events, s := OneMoreOperation(config, events, s, n - 1, overflow, span);
    }
  }

  /** For every limit some run tracks exactly maxServices + 2 services. */
  lemma ServiceCapIsReached(config: Config)
    ensures exists events :: CanRun(config, events) && |Run(config, events).state.tracker| == config.maxServices + 2
  {
    var events, s := ServiceRun(config, config.maxServices + 1, OVERFLOW_SERVICE);
    FilledSize(config.maxServices, OVERFLOW_SERVICE, s.tracker.Keys);
    assert |s.tracker| == |s.tracker.Keys|;
    assert CanRun(config, events) && Run(config, events).state == s;
  }

  /** For every limit some run tracks exactly maxOperations + 2 operations of one service. */
  lemma OperationCapIsReached(config: Config)
    ensures exists events, service ::
              && CanRun(config, events) && service in Run(config, events).state.tracker
              && |Run(config, events).state.tracker[service]| == config.maxOperations + 2
  {
    var service := OVERFLOW_SERVICE;
    var events, s := OperationRun(config, service, config.maxOperations + 1, OVERFLOW_OPERATION);
    FilledSize(config.maxOperations, OVERFLOW_OPERATION, Operations(s.tracker, service));
    assert service in s.tracker;
    assert CanRun(config, events) && Run(config, events).state == s;
  }
}
