/**
 Which spans share a key of the span metrics processor, and which dimensions a key has
 (processor/signozspanmetricsprocessor/processor.go:1172-1199, 1260-1330, 1365-1414).
 */
module SpanMetricsKeys {
  import opened DimensionCache
  import opened Options
  import opened SpanMetrics

  /** The parts can be read back from a key. */
  ghost predicate TellsApart(join: seq<string> -> Key) {
    forall a, b :: join(a) == join(b) ==> a == b
  }

  /** The key a family was last updated under. */
  function LastKey(f: Family): Option<Key> {
    if f.pending == [] then None else Some(f.pending[|f.pending| - 1].key)
  }

  ghost predicate BelowCaps(config: Config, tracker: Tracker) {
    |tracker| <= config.maxServices && forall s :: s in tracker ==> |tracker[s]| <= config.maxOperations
  }

  lemma SameParts(a: seq<string>, b: seq<string>, x: string, y: string)
    ensures [x] + a == [y] + b <==> x == y && a == b
  {
    assert ([x] + a)[1..] == a && ([y] + b)[1..] == b && ([x] + a)[0] == x && ([y] + b)[0] == y;
  }

  lemma ThreeParts(a1: string, a2: string, a3: string, b1: string, b2: string, b3: string)
    ensures [a1, a2, a3] == [b1, b2, b3] <==> a1 == b1 && a2 == b2 && a3 == b3
  {
    assert [a1, a2, a3][0] == a1 && [a1, a2, a3][1] == a2 && [a1, a2, a3][2] == a3;
    assert [b1, b2, b3][0] == b1 && [b1, b2, b3][1] == b2 && [b1, b2, b3][2] == b3;
  }

  /** Below both caps, and if keys can be read back, two spans share a latency key exactly if service, operation and
      dimension texts agree and, for delta metrics, the time bucket too. */
  lemma SameNamedKeyIff(config: Config, tracker: Tracker, a: Span, ta: string, b: Span, tb: string)
    requires TellsApart(config.join) && BelowCaps(config, tracker)
    ensures NamedKey(config, tracker, a, ta) == NamedKey(config, tracker, b, tb)
            <==> && a.service == b.service && a.name == b.name && ta == tb
                 && (config.delta ==> a.timeBucket == b.timeBucket)
  {
    var pa, pb := [a.service, a.name, ta], [b.service, b.name, tb];
    ThreeParts(a.service, a.name, ta, b.service, b.name, tb);
    if config.delta {
      SameParts(pa, pb, a.timeBucket, b.timeBucket);
      assert [a.timeBucket] + pa == [a.timeBucket, a.service, a.name, ta];
      assert [b.timeBucket] + pb == [b.timeBucket, b.service, b.name, tb];
    }
  }

  predicate SameOperation(config: Config, a: Span, b: Span) {
    a.service == b.service && a.name == b.name && (config.delta ==> a.timeBucket == b.timeBucket)
  }

  lemma LastNamedKeys(s: State, a: Span)
    ensures LastKey(AddLatency(s, a).latency) == Some(NamedKey(s.config, s.tracker, a, a.latencyText))
    ensures LastKey(AddCall(s, a).calls) == Some(NamedKey(s.config, s.tracker, a, a.callText))
    ensures s.config.expEnabled ==>
              LastKey(AddExp(s, a).exp) == Some(NamedKey(s.config, s.tracker, a, a.expText))
  {
  }

  /** Each family goes by its own dimension text. */
  lemma FamiliesKeepTheirTextsApart(s: State, a: Span, b: Span)
    requires TellsApart(s.config.join) && BelowCaps(s.config, s.tracker)
    ensures LastKey(AddLatency(s, a).latency) == LastKey(AddLatency(s, b).latency)
            <==> SameOperation(s.config, a, b) && a.latencyText == b.latencyText
    ensures LastKey(AddCall(s, a).calls) == LastKey(AddCall(s, b).calls)
            <==> SameOperation(s.config, a, b) && a.callText == b.callText
    ensures s.config.expEnabled ==>
              (LastKey(AddExp(s, a).exp) == LastKey(AddExp(s, b).exp)
               <==> SameOperation(s.config, a, b) && a.expText == b.expText)
  {
    LastNamedKeys(s, a);
    LastNamedKeys(s, b);
    SameNamedKeyIff(s.config, s.tracker, a, a.latencyText, b, b.latencyText);
    SameNamedKeyIff(s.config, s.tracker, a, a.callText, b, b.callText);
    SameNamedKeyIff(s.config, s.tracker, a, a.expText, b, b.expText);
  }

  /** External calls go by the remote address and their text, database calls by their text. */
  lemma CustomFamiliesKeepTheirTextsApart(s: State, a: Span, b: Span)
    requires TellsApart(s.config.join)
    ensures HasExternalCall(a) && HasExternalCall(b) ==>
              (LastKey(AddExternal(s, a).external) == LastKey(AddExternal(s, b).external)
               <==> && a.service == b.service && (s.config.delta ==> a.timeBucket == b.timeBucket)
                    && a.remote == b.remote && a.externalText == b.externalText)
    ensures HasDbCall(a) && HasDbCall(b) ==>
              (LastKey(AddDb(s, a).db) == LastKey(AddDb(s, b).db)
               <==> && a.service == b.service && (s.config.delta ==> a.timeBucket == b.timeBucket)
                    && a.dbText == b.dbText)
  {
    SameCustomKeyIff(s.config, a, [a.dbText], b, [b.dbText]);
    SameParts([], [], a.dbText, b.dbText);
    if HasExternalCall(a) && HasExternalCall(b) {
      SameCustomKeyIff(s.config, a, ExternalParts(a), b, ExternalParts(b));
      TwoParts(a.remote.value, a.externalText, b.remote.value, b.externalText);
    }
  }

  lemma TwoParts(a1: string, a2: string, b1: string, b2: string)
    ensures [a1, a2] == [b1, b2] <==> a1 == b1 && a2 == b2
  {
    assert [a1, a2][0] == a1 && [a1, a2][1] == a2 && [b1, b2][0] == b1 && [b1, b2][1] == b2;
  }

  /** Beyond the service cap all services share one name, and beyond its operation cap all operations of a service. */
  lemma OverflowSharesAKey(config: Config, tracker: Tracker, a: Span, b: Span, text: string)
    requires a.timeBucket == b.timeBucket
    requires |tracker| > config.maxServices || a.service == b.service
    requires a.name == b.name
             || (var s := if |tracker| > config.maxServices then OVERFLOW_SERVICE else a.service;
                 s in tracker && |tracker[s]| > config.maxOperations)
    ensures NamedKey(config, tracker, a, text) == NamedKey(config, tracker, b, text)
  {
  }

  /** Two spans share a key of external or database calls exactly if service and parts agree, and the time bucket
      for delta metrics. */
  lemma SameCustomKeyIff(config: Config, a: Span, pa: seq<string>, b: Span, pb: seq<string>)
    requires TellsApart(config.join)
    ensures CustomKey(config, a, pa) == CustomKey(config, b, pb)
            <==> a.service == b.service && pa == pb && (config.delta ==> a.timeBucket == b.timeBucket)
  {
    SameParts(pa, pb, a.service, b.service);
    if config.delta {
      SameParts([a.service] + pa, [b.service] + pb, a.timeBucket, b.timeBucket);
      assert [a.timeBucket] + ([a.service] + pa) == [a.timeBucket, a.service] + pa;
      assert [b.timeBucket] + ([b.service] + pb) == [b.timeBucket, b.service] + pb;
    }
  }

  /** A key has the dimensions of the span that brought it, with its names as the caps have them by then, and keeps
      them while it is known. Recording touches no other key's dimensions. */
  lemma KeyKeepsItsDimensions(config: Config, tracker: Tracker, f: Family, span: Span, text: string, k: Key)
    requires FamilyOk(f)
    ensures var after := Track(config, tracker, span.service, span.name);
            var service := if |after| > config.maxServices then OVERFLOW_SERVICE else span.service;
            var many := service in after && |after[service]| > config.maxOperations;
            var own := Dims(service, if many then OVERFLOW_OPERATION else span.name, text);
            Find(RecordNamed(config, tracker, f, span, text).family.cache, k)
            == if k == NamedKey(config, tracker, span, text) && Find(f.cache, k).None? then Some(own)
               else Find(f.cache, k)
  {
    var after := Track(config, tracker, span.service, span.name);
    var key := NamedKey(config, tracker, span, text);
    if Find(f.cache, key).Some? {
      GetKeepsEverything(f.cache, key);
    } else {
      AddFinds(f.cache, key, NamedDims(config, after, span, text));
    }
  }

  /** The latency is in milliseconds, and none if the span ends before it starts. */
  lemma LatencyInMillis(span: Span)
    ensures Latency(span) * 1000000.0 == if span.end > span.start then (span.end - span.start) as real else 0.0
  {
  }
}
