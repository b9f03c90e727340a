/**
 The field index and the scan of the logs normalizer (processor/signozlogsnormalizerprocessor/fields.go).
 A log's body and attributes are trees of maps whose entries are visited in storage order. Trimming and
 lower-casing a name is an arbitrary function, and so is each target's parser.
 */
module FieldScan {
  import opened Flattening
  import opened Options

  // ---- what is scanned ----

  const TARGETS: nat := 6

  /** A value that is not a map is told apart by its text. */
  datatype Value = Scalar(text: string) | Map(entries: seq<Entry>)
  datatype Entry = Entry(key: string, value: Value)
  datatype Source = Body | Attributes | Derived
  datatype Inferred = Severity(number: int) | Text(text: string) | Trace(traceId: string) | Span(spanId: string)

  type Parser = Value -> Option<Inferred>

  /** What a target read: where it was found, how it was spelled, and what it says. */
  datatype Hit = Hit(rank: nat, source: Source, rawPath: string, key: string, found: Inferred)

  datatype Node = Node(path: string, rawPath: string, key: string, value: Value)

  datatype Lookup = Lookup(entries: seq<Entry>, source: Source)

  /** Every entry of every nested map, in visiting order and without pruning. */
  function Walk(normalize: string -> string, entries: seq<Entry>, prefix: string, rawPrefix: string): seq<Node> {
    if entries == [] then []
    else
      var n := |entries| - 1;
      var e := entries[n];
      var path, rawPath := prefix + normalize(e.key), rawPrefix + e.key;
      Walk(normalize, entries[..n], prefix, rawPrefix)
      + [Node(path, rawPath, e.key, e.value)]
      + if e.value.Map? then Walk(normalize, e.value.entries, path + ".", rawPath + ".") else []
  }

  // ---- which hit wins ----

  /** Byte-wise order of strings. */
  predicate StringLess(a: string, b: string) {
    b != [] && (a == [] || a[0] < b[0] || (a[0] == b[0] && StringLess(a[1..], b[1..])))
  }

  function Order(source: Source): nat {
    match source
    case Body => 0
    case Attributes => 1
    case Derived => 2
  }

  /** The configured order of a field decides; then where it was found; then the log's spelling. */
  predicate LosesTo(current: Option<Hit>, rank: nat, source: Source, rawPath: string) {
    if current.None? then true
    else if rank != current.value.rank then rank < current.value.rank
    else if source != current.value.source then Order(source) < Order(current.value.source)
    else StringLess(rawPath, current.value.rawPath)
  }

  predicate Beats(a: Hit, b: Hit) {
    LosesTo(Some(b), a.rank, a.source, a.rawPath)
  }

  predicate SameKey(a: Hit, b: Hit) {
    a.rank == b.rank && a.source == b.source && a.rawPath == b.rawPath
  }

  lemma {:induction false} StringOrder(a: string, b: string)
    ensures !StringLess(a, a)
    ensures StringLess(a, b) || StringLess(b, a) || a == b
    ensures !(StringLess(a, b) && StringLess(b, a))
  {
    if a != [] && b != [] {
      StringOrder(a[1..], b[1..]);
      assert a == [a[0]] + a[1..] && b == [b[0]] + b[1..];
    } else if a != [] {
      StringOrder(a[1..], a[1..]);
    }
  }

  lemma {:induction false} StringOrderTransitive(a: string, b: string, c: string)
    requires StringLess(a, b) && StringLess(b, c)
    ensures StringLess(a, c)
  {
    if a != [] && a[0] == b[0] == c[0] {
      StringOrderTransitive(a[1..], b[1..], c[1..]);
    }
  }

  /** Beats is a strict order that is total up to the spelling: it never depends on what was parsed. */
  lemma BeatsIsAnOrder(a: Hit, b: Hit, c: Hit)
    ensures !Beats(a, a)
    ensures !(Beats(a, b) && Beats(b, a))
    ensures Beats(a, b) || Beats(b, a) || SameKey(a, b)
    ensures Beats(a, b) && Beats(b, c) ==> Beats(a, c)
  {
    StringOrder(a.rawPath, a.rawPath);
    StringOrder(a.rawPath, b.rawPath);
    if StringLess(a.rawPath, b.rawPath) && StringLess(b.rawPath, c.rawPath) {
      StringOrderTransitive(a.rawPath, b.rawPath, c.rawPath);
    }
  }

  /** What is kept after looking at hits in turn. */
  function Absorb(current: Option<Hit>, hits: seq<Hit>): Option<Hit> {
    if hits == [] then current
    else
      var n := |hits| - 1;
      var kept := Absorb(current, hits[..n]);
      if kept.None? || Beats(hits[n], kept.value) then Some(hits[n]) else kept
  }

  lemma {:induction false} AbsorbConcat(current: Option<Hit>, a: seq<Hit>, b: seq<Hit>)
    ensures Absorb(current, a + b) == Absorb(Absorb(current, a), b)
  {
    if b == [] {
      assert a + b == a;
    } else {
      var n := |b| - 1;
      AbsorbConcat(current, a, b[..n]);
      assert (a + b)[..|a| + n] == a + b[..n];
    }
  }

  /** The kept hit is one of the hits, and none of them beats it. */
  lemma {:induction false} AbsorbIsLeast(hits: seq<Hit>)
    ensures Absorb(None, hits).None? <==> hits == []
    ensures hits != [] ==> Absorb(None, hits).value in hits
    ensures forall i :: 0 <= i < |hits| ==> !Beats(hits[i], Absorb(None, hits).value)
  {
    if hits != [] {
      var n := |hits| - 1;
      AbsorbIsLeast(hits[..n]);
      forall i | 0 <= i < |hits| ensures !Beats(hits[i], Absorb(None, hits).value) {
        if i < n {
          assert hits[i] == hits[..n][i];
          BeatsIsAnOrder(hits[i], hits[n], Absorb(None, hits[..n]).value);
        } else {
          BeatsIsAnOrder(hits[n], hits[n], hits[n]);
        }
      }
    }
  }

  // ---- the hits of one target, by brute force ----

  function RankOf(fields: seq<string>, path: string): Option<nat> {
    if fields == [] then None
    else if fields[0] == path then Some(0)
    else
      match RankOf(fields[1..], path)
      case None => None
      case Some(r) => Some(r + 1)
  }

  lemma {:induction false} RankOfPath(fields: seq<string>, path: string)
    ensures RankOf(fields, path).None? <==> path !in fields
    ensures RankOf(fields, path).Some? ==>
              RankOf(fields, path).value < |fields| && fields[RankOf(fields, path).value] == path
  {
    if fields != [] {
      RankOfPath(fields[1..], path);
      assert fields == [fields[0]] + fields[1..];
    }
  }

  /** The hits a node yields for a target with these fields: none, or one if it parses. */
  function NodeHits(fields: seq<string>, want: Option<Parser>, source: Source, node: Node): seq<Hit> {
    var rank := RankOf(fields, node.path);
    if rank.None? || want.None? then []
    else
      match want.value(node.value)
      case None => []
      case Some(found) => [Hit(rank.value, source, node.rawPath, node.key, found)]
  }

  function HitsOf(fields: seq<string>, want: Option<Parser>, source: Source): Node -> seq<Hit> {
    (node: Node) => NodeHits(fields, want, source, node)
  }

  function Hits(fields: seq<string>, want: Option<Parser>, source: Source, nodes: seq<Node>): seq<Hit> {
    Flat(HitsOf(fields, want, source), nodes)
  }

  function LookupHitsOf(normalize: string -> string, fields: seq<string>, want: Option<Parser>): Lookup -> seq<Hit> {
    (l: Lookup) => Hits(fields, want, l.source, Walk(normalize, l.entries, "", ""))
  }

  function LookupHits(normalize: string -> string, fields: seq<string>, want: Option<Parser>,
                      lookups: seq<Lookup>): seq<Hit>
  {
    Flat(LookupHitsOf(normalize, fields, want), lookups)
  }

  // ---- the index ----

  datatype FieldMatch = FieldMatch(target: nat, rank: nat)

  /** The path of a map that leads toward a dotted field. */
  ghost predicate IsParent(p: string, field: string) {
    |p| < |field| && field[|p|] == '.' && field[..|p|] == p
  }

  ghost predicate Distinct<T>(xs: seq<T>) {
    forall i, j :: 0 <= i < j < |xs| ==> xs[i] != xs[j]
  }

  /** byField[field] lists, without repetition, exactly the places at which byTarget holds the field. */
  ghost predicate MatchesOk(byTarget: seq<seq<string>>, byField: map<string, seq<FieldMatch>>, field: string)
    requires field in byField
  {
    && Distinct(byField[field])
    && (forall i :: 0 <= i < |byField[field]| ==> HasRank(byTarget, byField[field][i], field))
  }

  ghost predicate HasRank(byTarget: seq<seq<string>>, m: FieldMatch, field: string) {
    m.target < |byTarget| && m.rank < |byTarget[m.target]| && byTarget[m.target][m.rank] == field
  }

  ghost predicate FieldsOk(byTarget: seq<seq<string>>, byField: map<string, seq<FieldMatch>>) {
    && (forall t :: 0 <= t < |byTarget| ==> Distinct(byTarget[t]))
    && (forall field :: field in byField ==> MatchesOk(byTarget, byField, field))
    && (forall t: nat, r: nat :: t < |byTarget| && r < |byTarget[t]| ==>
                                   byTarget[t][r] in byField && FieldMatch(t, r) in byField[byTarget[t][r]])
  }

  ghost predicate PrefixesOk(byField: map<string, seq<FieldMatch>>, prefixes: set<string>) {
    && (forall field, p :: field in byField && IsParent(p, field) ==> p in prefixes)
    && (forall p :: p in prefixes ==> exists field :: field in byField && IsParent(p, field))
  }

  ghost predicate IndexOk(byTarget: seq<seq<string>>, byField: map<string, seq<FieldMatch>>, prefixes: set<string>) {
    |byTarget| == TARGETS && FieldsOk(byTarget, byField) && PrefixesOk(byField, prefixes)
  }

  function Matches(byField: map<string, seq<FieldMatch>>, field: string): seq<FieldMatch> {
    if field in byField then byField[field] else []
  }

  lemma AddField(byTarget: seq<seq<string>>, byField: map<string, seq<FieldMatch>>, t: nat, field: string)
    requires FieldsOk(byTarget, byField) && t < |byTarget| && field !in byTarget[t]
    ensures FieldsOk(byTarget[t := byTarget[t] + [field]],
                     byField[field := Matches(byField, field) + [FieldMatch(t, |byTarget[t]|)]])
  {
    var after := byTarget[t := byTarget[t] + [field]];
    var index := byField[field := Matches(byField, field) + [FieldMatch(t, |byTarget[t]|)]];
    forall f | f in index ensures MatchesOk(after, index, f) {
      AddFieldMatches(byTarget, byField, t, field, f);
    }
    forall u: nat, r: nat | u < |after| && r < |after[u]|
      ensures after[u][r] in index && FieldMatch(u, r) in index[after[u][r]]
    {
      if u == t && r == |byTarget[t]| {
        assert index[field][|Matches(byField, field)|] == FieldMatch(t, r);
      } else {
        assert byTarget[u][r] in byField && FieldMatch(u, r) in byField[byTarget[u][r]];
      }
    }
  }

  lemma AddFieldMatches(byTarget: seq<seq<string>>, byField: map<string, seq<FieldMatch>>, t: nat, field: string,
                        f: string)
    requires t < |byTarget| && field !in byTarget[t] && (f in byField || f == field)
    requires f in byField ==> MatchesOk(byTarget, byField, f)
    ensures MatchesOk(byTarget[t := byTarget[t] + [field]],
                      byField[field := Matches(byField, field) + [FieldMatch(t, |byTarget[t]|)]], f)
  {
    if f in byField {
      assert forall i :: 0 <= i < |byField[f]| ==> HasRank(byTarget, byField[f][i], f);
    }
  }

  lemma MorePrefixes(byField: map<string, seq<FieldMatch>>, prefixes: set<string>,
                     index: map<string, seq<FieldMatch>>, parents: set<string>, field: string)
    requires PrefixesOk(byField, prefixes) && index.Keys == byField.Keys + {field}
    requires forall p :: p in parents <==> p in prefixes || IsParent(p, field)
    ensures PrefixesOk(index, parents)
  {
    forall f, p | f in index && IsParent(p, f) ensures p in parents {
      assert f in byField || f == field;
    }
    forall p | p in parents ensures exists f :: f in index && IsParent(p, f) {
      if p in prefixes {
        var f :| f in byField && IsParent(p, f);
        assert f in index;
      } else {
        assert field in index && IsParent(p, field);
      }
    }
  }

  /** The ranks after adding names to those already ranked: blank and repeated names are passed over. */
  function Ranked(normalize: string -> string, ranked: seq<string>, names: seq<string>): seq<string> {
    if names == [] then ranked
    else
      var n := |names| - 1;
      var rest := Ranked(normalize, ranked, names[..n]);
      var field := normalize(names[n]);
      if field == "" || field in rest then rest else rest + [field]
  }

  ghost predicate Mentioned(normalize: string -> string, names: seq<string>, field: string) {
    exists i :: 0 <= i < |names| && normalize(names[i]) == field
  }

  lemma MentionedNext(normalize: string -> string, names: seq<string>, n: nat, field: string)
    requires n + 1 == |names|
    ensures Mentioned(normalize, names, field)
            <==> Mentioned(normalize, names[..n], field) || normalize(names[n]) == field
  {
    if Mentioned(normalize, names[..n], field) {
      var i :| 0 <= i < n && normalize(names[..n][i]) == field;
      assert normalize(names[i]) == field;
    }
    if i :| 0 <= i < n && normalize(names[i]) == field {
      assert normalize(names[..n][i]) == field;
    }
  }

  /** From nothing, exactly the non-blank configured fields are ranked, each once; a longer configuration
      only ranks more fields after those, so each field is ranked by its first mention. */
  lemma {:induction false} RanksFollowTheConfiguration(normalize: string -> string, names: seq<string>, k: nat,
                                                       field: string)
    requires k <= |names|
    ensures Distinct(Ranked(normalize, [], names))
    ensures field in Ranked(normalize, [], names) <==> field != "" && Mentioned(normalize, names, field)
    ensures Ranked(normalize, [], names[..k]) <= Ranked(normalize, [], names)
  {
    if names != [] {
      var n := |names| - 1;
      RanksFollowTheConfiguration(normalize, names[..n], if k < n then k else n, field);
      assert k <= n ==> names[..n][..k] == names[..k];
      assert k > n ==> names[..k] == names;
      MentionedNext(normalize, names, n, field);
    }
  }

  // ---- pruning loses nothing ----

  function NodeAt(normalize: string -> string, entry: Entry, prefix: string, rawPrefix: string): Node {
    Node(prefix + normalize(entry.key), rawPrefix + entry.key, entry.key, entry.value)
  }

  function Below(normalize: string -> string, node: Node): seq<Node> {
    if node.value.Map? then Walk(normalize, node.value.entries, node.path + ".", node.rawPath + ".") else []
  }

  lemma {:induction false} WalkStaysBelow(normalize: string -> string, entries: seq<Entry>, prefix: string,
                                          rawPrefix: string)
    ensures forall node :: node in Walk(normalize, entries, prefix, rawPrefix) ==> prefix <= node.path
    decreases entries
  {
    if entries != [] {
      var n := |entries| - 1;
      var e := entries[n];
      var path := prefix + normalize(e.key);
      WalkStaysBelow(normalize, entries[..n], prefix, rawPrefix);
      if e.value.Map? {
        WalkStaysBelow(normalize, e.value.entries, path + ".", rawPrefix + e.key + ".");
        assert prefix <= path + ".";
      }
    }
  }

  lemma NoHits(fields: seq<string>, want: Option<Parser>, source: Source, nodes: seq<Node>)
    requires forall node :: node in nodes ==> node.path !in fields
    ensures Hits(fields, want, source, nodes) == []
  {
    var hits := Hits(fields, want, source, nodes);
    if hits != [] {
      FlatMember(HitsOf(fields, want, source), nodes, hits[0]);
      var i :| 0 <= i < |nodes| && hits[0] in HitsOf(fields, want, source)(nodes[i]);
      RankOfPath(fields, nodes[i].path);
      assert false;
    }
  }

  /** Nothing below a map the scan does not descend into can match a field. */
  lemma PrunedHasNoHits(byTarget: seq<seq<string>>, byField: map<string, seq<FieldMatch>>, prefixes: set<string>,
                        normalize: string -> string, t: nat, want: Option<Parser>, source: Source, node: Node)
    requires IndexOk(byTarget, byField, prefixes) && t < TARGETS && !(node.path in prefixes && node.value.Map?)
    ensures Hits(byTarget[t], want, source, Below(normalize, node)) == []
  {
    if node.value.Map? {
      WalkStaysBelow(normalize, node.value.entries, node.path + ".", node.rawPath + ".");
      forall below | below in Below(normalize, node) ensures below.path !in byTarget[t] {
        assert node.path + "." <= below.path;
        assert below.path[|node.path|] == (node.path + ".")[|node.path|];
        assert below.path[..|node.path|] == (node.path + ".")[..|node.path|] == node.path;
        assert IsParent(node.path, below.path);
      }
      NoHits(byTarget[t], want, source, Below(normalize, node));
    }
  }

  /** One more entry: its own hits, then those below it. */
  lemma OneMoreEntry(normalize: string -> string, fields: seq<string>, want: Option<Parser>, source: Source,
                     entries: seq<Entry>, i: nat, prefix: string, rawPrefix: string, start: Option<Hit>)
    requires i < |entries|
    ensures var node := NodeAt(normalize, entries[i], prefix, rawPrefix);
            Absorb(start, Hits(fields, want, source, Walk(normalize, entries[..i + 1], prefix, rawPrefix)))
            == Absorb(Absorb(Absorb(start,
                                    Hits(fields, want, source, Walk(normalize, entries[..i], prefix, rawPrefix))),
                             NodeHits(fields, want, source, node)),
                      Hits(fields, want, source, Below(normalize, node)))
  {
    var node := NodeAt(normalize, entries[i], prefix, rawPrefix);
    var walked := Walk(normalize, entries[..i], prefix, rawPrefix);
    assert entries[..i + 1][..i] == entries[..i];
    assert Walk(normalize, entries[..i + 1], prefix, rawPrefix) == walked + [node] + Below(normalize, node);
    FlatConcat(HitsOf(fields, want, source), walked + [node], Below(normalize, node));
    FlatSnoc(HitsOf(fields, want, source), walked, node);
    AbsorbConcat(start, Hits(fields, want, source, walked + [node]),
                 Hits(fields, want, source, Below(normalize, node)));
    AbsorbConcat(start, Hits(fields, want, source, walked), NodeHits(fields, want, source, node));
  }

  // ---- the index object and the scan ----

  const DEFAULT_FIELDS: seq<seq<string>> := [
    ["severity_number", "severitynumber"],
    ["severity_text", "severitytext", "severity", "level", "log.level", "log_level", "loglevel", "levelname",
     "level_name", "lvl"],
    ["trace_id", "traceid", "trace.id"],
    ["span_id", "spanid", "span.id"],
    ["scope.name", "scope_name", "scopename"],
    ["scope.version", "scope_version", "scopeversion"]]

  /** No configured names at all means the defaults. */
  function FieldsOf(t: nat, names: seq<string>): seq<string>
    requires t < TARGETS
  {
    if names == [] then DEFAULT_FIELDS[t] else names
  }

  class FieldIndex {
    const normalize: string -> string
    var byField: map<string, seq<FieldMatch>>
    var prefixes: set<string>
    var byTarget: seq<seq<string>>

    ghost predicate Valid()
      reads this
    {
      IndexOk(byTarget, byField, prefixes)
    }

    constructor (normalize: string -> string)
      ensures Valid() && this.normalize == normalize && byTarget == seq(TARGETS, _ => [])
    {
      this.normalize := normalize;
      byField, prefixes, byTarget := map[], {}, seq(TARGETS, _ => []);
    }

    method Add(t: nat, enabled: bool, names: seq<string>)
      requires Valid() && t < TARGETS
      modifies this
      ensures Valid()
      ensures byTarget == if !enabled then old(byTarget)
                          else old(byTarget)[t := Ranked(normalize, old(byTarget)[t], FieldsOf(t, names))]
    {
      if enabled {
        var fields := if names == [] then DEFAULT_FIELDS[t] else names;
        AddAll(t, fields);
      }
    }

    method AddAll(t: nat, fields: seq<string>)
      requires Valid() && t < TARGETS
      modifies this
      ensures Valid() && byTarget == old(byTarget)[t := Ranked(normalize, old(byTarget)[t], fields)]
    {
      var i := 0;
      while i < |fields|
        invariant 0 <= i <= |fields| && Valid()
        invariant byTarget == old(byTarget)[t := Ranked(normalize, old(byTarget)[t], fields[..i])]
      {
        AddName(t, normalize(fields[i]));
        assert fields[..i + 1][..i] == fields[..i];
        i := i + 1;
      }
      assert fields[..i] == fields;
    }

    method AddName(t: nat, field: string)
      requires Valid() && t < TARGETS
      modifies this
      ensures Valid()
      ensures byTarget == if field == "" || field in old(byTarget)[t] then old(byTarget)
                          else old(byTarget)[t := old(byTarget)[t] + [field]]
    {
      if field != "" && field !in byTarget[t] {
        AddField(byTarget, byField, t, field);
        ghost var before, parents := byField, prefixes;
        byField := byField[field := Matches(byField, field) + [FieldMatch(t, |byTarget[t]|)]];
        byTarget := byTarget[t := byTarget[t] + [field]];
        AddPrefixes(field);
        MorePrefixes(before, parents, byField, prefixes, field);
      }
    }

    method AddPrefixes(field: string)
      modifies this`prefixes
      ensures forall p :: p in prefixes <==> p in old(prefixes) || IsParent(p, field)
    {
      var i := 0;
      while i < |field|
        invariant 0 <= i <= |field|
        invariant forall p :: p in prefixes <==> p in old(prefixes) || (IsParent(p, field) && |p| < i)
      {
        if field[i] == '.' {
          prefixes := prefixes + {field[..i]};
        }
        i := i + 1;
      }
    }

    /** The matches of one entry's path, each for a different target. */
    method Offer(node: Node, source: Source, want: seq<Option<Parser>>, results: array<Option<Hit>>)
      requires Valid() && |want| == TARGETS == results.Length
      modifies results
      ensures forall t: nat :: t < TARGETS ==>
                results[t] == Absorb(old(results[t]), NodeHits(byTarget[t], want[t], source, node))
    {
      var matches := Matches(byField, node.path);
      var j := 0;
      while j < |matches|
        invariant 0 <= j <= |matches|
        invariant forall t: nat :: t < TARGETS ==>
          results[t] == if Reached(matches[..j], t)
                        then Absorb(old(results[t]), NodeHits(byTarget[t], want[t], source, node))
                        else old(results[t])
      {
        var m := matches[j];
        MatchIsTheRank(byTarget, byField, node.path, j);
        ReachedNext(matches, j);
        if want[m.target].Some? && LosesTo(results[m.target], m.rank, source, node.rawPath) {
          var parsed := want[m.target].value(node.value);
          if parsed.Some? {
            results[m.target] := Some(Hit(m.rank, source, node.rawPath, node.key, parsed.value));
          }
        }
        OneHit(old(results[m.target]), NodeHits(byTarget[m.target], want[m.target], source, node));
        j := j + 1;
      }
      forall t: nat | t < TARGETS ensures Reached(matches, t) || RankOf(byTarget[t], node.path).None? {
        RankOfPath(byTarget[t], node.path);
      }
      assert matches[..j] == matches;
    }

    /** For every target, what is kept is what looking at all the hits of an unpruned walk would keep. */
    method ScanMap(entries: seq<Entry>, prefix: string, rawPrefix: string, source: Source,
                   want: seq<Option<Parser>>, results: array<Option<Hit>>)
      requires Valid() && |want| == TARGETS == results.Length
      modifies results
      ensures forall t: nat :: t < TARGETS ==>
                results[t] == Absorb(old(results[t]),
                                     Hits(byTarget[t], want[t], source,
                                          Walk(normalize, entries, prefix, rawPrefix)))
      decreases entries
    {
      var i := 0;
      while i < |entries|
        invariant 0 <= i <= |entries|
        invariant forall t: nat :: t < TARGETS ==>
          results[t] == Absorb(old(results[t]),
                               Hits(byTarget[t], want[t], source,
                                    Walk(normalize, entries[..i], prefix, rawPrefix)))
      {
        VisitEntry(entries[i], prefix, rawPrefix, source, want, results);
        forall t: nat | t < TARGETS
          ensures results[t]
                  == Absorb(old(results[t]),
                            Hits(byTarget[t], want[t], source, Walk(normalize, entries[..i + 1], prefix, rawPrefix)))
        {
          OneMoreEntry(normalize, byTarget[t], want[t], source, entries, i, prefix, rawPrefix, old(results[t]));
        }
        i := i + 1;
      }
      assert entries[..i] == entries;
    }

    /** The body of the visit: offer the entry itself, then scan below it if some field may be there. */
    method VisitEntry(entry: Entry, prefix: string, rawPrefix: string, source: Source,
                      want: seq<Option<Parser>>, results: array<Option<Hit>>)
      requires Valid() && |want| == TARGETS == results.Length
      modifies results
      ensures var node := NodeAt(normalize, entry, prefix, rawPrefix);
              forall t: nat :: t < TARGETS ==>
                results[t] == Absorb(Absorb(old(results[t]), NodeHits(byTarget[t], want[t], source, node)),
                                     Hits(byTarget[t], want[t], source, Below(normalize, node)))
      decreases entry
    {
      var path, rawPath := prefix + normalize(entry.key), rawPrefix + entry.key;
      Offer(Node(path, rawPath, entry.key, entry.value), source, want, results);
      if path in prefixes && entry.value.Map? {
        ScanMap(entry.value.entries, path + ".", rawPath + ".", source, want, results);
      } else {
        forall t: nat | t < TARGETS
          ensures Hits(byTarget[t], want[t], source, Below(normalize, NodeAt(normalize, entry, prefix, rawPrefix)))
                  == []
        {
          PrunedHasNoHits(byTarget, byField, prefixes, normalize, t, want[t], source,
                          NodeAt(normalize, entry, prefix, rawPrefix));
        }
      }
    }

    /** Each target keeps the least of its hits over all lookups. */
    method Scan(lookups: seq<Lookup>, want: seq<Option<Parser>>, results: array<Option<Hit>>)
      requires Valid() && |want| == TARGETS == results.Length
      modifies results
      ensures forall t: nat :: t < TARGETS ==>
                results[t] == Absorb(old(results[t]), LookupHits(normalize, byTarget[t], want[t], lookups))
    {
      var i := 0;
      while i < |lookups|
        invariant 0 <= i <= |lookups|
        invariant forall t: nat :: t < TARGETS ==>
          results[t] == Absorb(old(results[t]), LookupHits(normalize, byTarget[t], want[t], lookups[..i]))
      {
        ScanMap(lookups[i].entries, "", "", lookups[i].source, want, results);
        assert lookups[..i + 1][..i] == lookups[..i];
        forall t: nat | t < TARGETS
          ensures results[t] == Absorb(old(results[t]), LookupHits(normalize, byTarget[t], want[t], lookups[..i + 1]))
        {
          AbsorbConcat(old(results[t]), LookupHits(normalize, byTarget[t], want[t], lookups[..i]),
                       Hits(byTarget[t], want[t], lookups[i].source, Walk(normalize, lookups[i].entries, "", "")));
        }
        i := i + 1;
      }
      assert lookups[..i] == lookups;
    }
  }

  ghost predicate Reached(matches: seq<FieldMatch>, t: nat) {
    exists j :: 0 <= j < |matches| && matches[j].target == t
  }

  lemma ReachedNext(matches: seq<FieldMatch>, j: nat)
    requires j < |matches|
    ensures forall t: nat :: Reached(matches[..j + 1], t) <==> Reached(matches[..j], t) || t == matches[j].target
  {
    assert matches[..j + 1] == matches[..j] + [matches[j]];
    forall t: nat ensures Reached(matches[..j + 1], t) <==> Reached(matches[..j], t) || t == matches[j].target {
      if Reached(matches[..j], t) {
        var i :| 0 <= i < j && matches[..j][i].target == t;
        assert matches[..j + 1][i].target == t;
      }
      assert matches[..j + 1][j].target == matches[j].target;
    }
  }

  lemma OneHit(start: Option<Hit>, hits: seq<Hit>)
    requires |hits| <= 1
    ensures hits == [] ==> Absorb(start, hits) == start
    ensures hits != [] ==>
            Absorb(start, hits) == if start.None? || Beats(hits[0], start.value) then Some(hits[0]) else start
  {
    if hits != [] {
      assert hits[..0] == [];
    }
  }

  /** A match names the place of the path among its target's fields, and no other match has that target. */
  lemma MatchIsTheRank(byTarget: seq<seq<string>>, byField: map<string, seq<FieldMatch>>, path: string, j: nat)
    requires FieldsOk(byTarget, byField) && j < |Matches(byField, path)|
    ensures var m := Matches(byField, path)[j];
            && m.target < |byTarget| && RankOf(byTarget[m.target], path) == Some(m.rank)
            && !Reached(Matches(byField, path)[..j], m.target)
  {
    var matches := Matches(byField, path);
    var m := matches[j];
    assert MatchesOk(byTarget, byField, path);
    assert HasRank(byTarget, m, path);
    RankOfPath(byTarget[m.target], path);
    forall i | 0 <= i < j ensures matches[i].target != m.target {
      assert HasRank(byTarget, matches[i], path);
    }
  }

  // ---- the winner, without the walk ----

  ghost predicate HitAt(normalize: string -> string, fields: seq<string>, want: Option<Parser>, lookup: Lookup,
                        hit: Hit)
  {
    exists node :: node in Walk(normalize, lookup.entries, "", "") && hit in NodeHits(fields, want, lookup.source, node)
  }

  /** The hit is some entry, at any depth, whose path is a field of the target and whose value parses. */
  ghost predicate IsHit(normalize: string -> string, fields: seq<string>, want: Option<Parser>, lookups: seq<Lookup>,
                        hit: Hit)
  {
    exists i :: 0 <= i < |lookups| && HitAt(normalize, fields, want, lookups[i], hit)
  }

  lemma LookupHitsAreHits(normalize: string -> string, fields: seq<string>, want: Option<Parser>, lookups: seq<Lookup>,
                          hit: Hit)
    ensures hit in LookupHits(normalize, fields, want, lookups) <==> IsHit(normalize, fields, want, lookups, hit)
  {
    FlatMember(LookupHitsOf(normalize, fields, want), lookups, hit);
    forall l ensures hit in LookupHitsOf(normalize, fields, want)(l) <==> HitAt(normalize, fields, want, l, hit) {
      HitsOfNodes(fields, want, l.source, Walk(normalize, l.entries, "", ""), hit);
    }
  }

  lemma HitsOfNodes(fields: seq<string>, want: Option<Parser>, source: Source, nodes: seq<Node>, hit: Hit)
    ensures hit in Hits(fields, want, source, nodes)
            <==> exists node :: node in nodes && hit in NodeHits(fields, want, source, node)
  {
    FlatMember(HitsOf(fields, want, source), nodes, hit);
  }

  /** What a scan of a fresh result keeps for a target. */
  function Winner(normalize: string -> string, fields: seq<string>, want: Option<Parser>,
                  lookups: seq<Lookup>): Option<Hit>
  {
    Absorb(None, LookupHits(normalize, fields, want, lookups))
  }

  // ---- the order of hits, spelled out ----

  /** At the first place where they differ, a ends or has the smaller character. */
  ghost predicate Before(a: string, b: string) {
    exists i: nat :: i <= |a| && i < |b| && a[..i] == b[..i] && (i == |a| || a[i] < b[i])
  }

  predicate EarlierSource(a: Source, b: Source) {
    (a.Body? && !b.Body?) || (a.Attributes? && b.Derived?)
  }

  /** The lower rank; for the same rank the body, then the attributes; and then the spelling that sorts first. */
  ghost predicate NotAfter(w: Hit, h: Hit) {
    || w.rank < h.rank
    || (w.rank == h.rank && EarlierSource(w.source, h.source))
    || (w.rank == h.rank && w.source == h.source && (w.rawPath == h.rawPath || Before(w.rawPath, h.rawPath)))
  }

  lemma {:induction false} StringLessIsBefore(a: string, b: string)
    requires StringLess(a, b)
    ensures Before(a, b)
  {
    if a == [] || a[0] < b[0] {
      assert a[..0] == b[..0];
    } else {
      StringLessIsBefore(a[1..], b[1..]);
      var i: nat :| i <= |a[1..]| && i < |b[1..]| && a[1..][..i] == b[1..][..i]
                    && (i == |a[1..]| || a[1..][i] < b[1..][i]);
      assert a[..i + 1] == [a[0]] + a[1..][..i] && b[..i + 1] == [b[0]] + b[1..][..i];
    }
  }

  lemma UnbeatenIsNotAfter(w: Hit, h: Hit)
    requires !Beats(h, w)
    ensures NotAfter(w, h)
  {
    StringOrder(w.rawPath, h.rawPath);
    if StringLess(w.rawPath, h.rawPath) {
      StringLessIsBefore(w.rawPath, h.rawPath);
    }
  }

  /** A target is found exactly when some entry anywhere in the log matches one of its fields and parses,
      and then no such entry comes before the winner in rank, source and spelling. */
  lemma WinnerIsTheLeastHit(normalize: string -> string, fields: seq<string>, want: Option<Parser>,
                            lookups: seq<Lookup>)
    ensures Winner(normalize, fields, want, lookups).Some?
            <==> exists hit :: IsHit(normalize, fields, want, lookups, hit)
    ensures Winner(normalize, fields, want, lookups).Some? ==>
              && IsHit(normalize, fields, want, lookups, Winner(normalize, fields, want, lookups).value)
              && forall hit :: IsHit(normalize, fields, want, lookups, hit) ==>
                                 NotAfter(Winner(normalize, fields, want, lookups).value, hit)
  {
    var hits := LookupHits(normalize, fields, want, lookups);
    AbsorbIsLeast(hits);
    forall hit ensures hit in hits <==> IsHit(normalize, fields, want, lookups, hit) {
      LookupHitsAreHits(normalize, fields, want, lookups, hit);
    }
    if hits != [] {
      var w := Winner(normalize, fields, want, lookups).value;
      assert IsHit(normalize, fields, want, lookups, w);
      forall hit | IsHit(normalize, fields, want, lookups, hit) ensures NotAfter(w, hit) {
        var i :| 0 <= i < |hits| && hits[i] == hit;
        UnbeatenIsNotAfter(w, hit);
      }
    }
  }

  // ---- iteration order ----

  /** A node at an entry or below it. */
  predicate Visits(normalize: string -> string, entry: Entry, prefix: string, rawPrefix: string, node: Node) {
    var at := NodeAt(normalize, entry, prefix, rawPrefix);
    node == at || node in Below(normalize, at)
  }

  /** A walk visits each entry and everything below it. */
  lemma {:induction false} WalkVisits(normalize: string -> string, entries: seq<Entry>, prefix: string,
                                      rawPrefix: string, node: Node)
    ensures node in Walk(normalize, entries, prefix, rawPrefix) <==>
            exists i :: 0 <= i < |entries| && Visits(normalize, entries[i], prefix, rawPrefix, node)
  {
    if entries != [] {
      var n := |entries| - 1;
      WalkVisits(normalize, entries[..n], prefix, rawPrefix, node);
      assert Walk(normalize, entries, prefix, rawPrefix)
          == Walk(normalize, entries[..n], prefix, rawPrefix) + [NodeAt(normalize, entries[n], prefix, rawPrefix)]
             + Below(normalize, NodeAt(normalize, entries[n], prefix, rawPrefix));
      assert forall i :: 0 <= i < n ==> entries[..n][i] == entries[i];
    }
  }

  /** Some way of going through the entries of each map, once each. */
  ghost predicate IsOrder(order: seq<Entry> -> seq<Entry>) {
    forall entries :: multiset(order(entries)) == multiset(entries)
  }

  lemma OrderVisitsAll(order: seq<Entry> -> seq<Entry>, entries: seq<Entry>)
    requires IsOrder(order)
    ensures forall e :: e in order(entries) <==> e in entries
  {
    forall e ensures e in order(entries) <==> e in entries {
      assert multiset(order(entries)) == multiset(entries);
      assert e in order(entries) <==> e in multiset(order(entries));
      assert e in entries <==> e in multiset(entries);
    }
  }

  /** The walk that goes through visit, some entries of a map, and below each in the given order. */
  ghost function WalkIn(order: seq<Entry> -> seq<Entry>, normalize: string -> string, entries: seq<Entry>,
                        visit: seq<Entry>, prefix: string, rawPrefix: string): seq<Node>
    requires IsOrder(order) && forall e :: e in visit ==> e in entries
    decreases entries, |visit|
  {
    if visit == [] then []
    else
      var n := |visit| - 1;
      var e := visit[n];
      assert e in visit;
      var at := NodeAt(normalize, e, prefix, rawPrefix);
      WalkIn(order, normalize, entries, visit[..n], prefix, rawPrefix)
      + [at]
      + if e.value.Map? then
          OrderVisitsAll(order, e.value.entries);
          WalkIn(order, normalize, e.value.entries, order(e.value.entries), at.path + ".", at.rawPath + ".")
        else []
  }

  lemma {:induction false} AnyOrderVisits(order: seq<Entry> -> seq<Entry>, normalize: string -> string,
                                          entries: seq<Entry>, visit: seq<Entry>, prefix: string, rawPrefix: string,
                                          node: Node)
    requires IsOrder(order) && forall e :: e in visit ==> e in entries
    ensures node in WalkIn(order, normalize, entries, visit, prefix, rawPrefix) <==>
            exists e :: e in visit && Visits(normalize, e, prefix, rawPrefix, node)
    decreases entries, |visit|
  {
    if visit != [] {
      var n := |visit| - 1;
      var e := visit[n];
      assert e in visit && visit == visit[..n] + [e];
      AnyOrderVisits(order, normalize, entries, visit[..n], prefix, rawPrefix, node);
      if e.value.Map? {
        var at := NodeAt(normalize, e, prefix, rawPrefix);
        AnyOrderSameNodes(order, normalize, e.value.entries, at.path + ".", at.rawPath + ".", node);
      }
    }
  }

  /** Every order visits the nodes of the plain walk. */
  lemma {:induction false} AnyOrderSameNodes(order: seq<Entry> -> seq<Entry>, normalize: string -> string,
                                             entries: seq<Entry>, prefix: string, rawPrefix: string, node: Node)
    requires IsOrder(order)
    ensures forall e :: e in order(entries) <==> e in entries
    ensures node in WalkIn(order, normalize, entries, order(entries), prefix, rawPrefix)
            <==> node in Walk(normalize, entries, prefix, rawPrefix)
    decreases entries, |order(entries)| + 1
  {
    OrderVisitsAll(order, entries);
    AnyOrderVisits(order, normalize, entries, order(entries), prefix, rawPrefix, node);
    WalkVisits(normalize, entries, prefix, rawPrefix, node);
  }

  ghost function HitsIn(order: seq<Entry> -> seq<Entry>, normalize: string -> string, fields: seq<string>,
                        want: Option<Parser>, lookups: seq<Lookup>): seq<Hit>
    requires IsOrder(order)
  {
    if lookups == [] then []
    else
      var n := |lookups| - 1;
      HitsIn(order, normalize, fields, want, lookups[..n])
      + Hits(fields, want, lookups[n].source, WalkAll(order, normalize, lookups[n].entries))
  }

  ghost function WalkAll(order: seq<Entry> -> seq<Entry>, normalize: string -> string, entries: seq<Entry>): seq<Node>
    requires IsOrder(order)
  {
    OrderVisitsAll(order, entries);
    WalkIn(order, normalize, entries, order(entries), "", "")
  }

  lemma {:induction false} AnyOrderSameHits(order: seq<Entry> -> seq<Entry>, normalize: string -> string,
                                            fields: seq<string>, want: Option<Parser>, lookups: seq<Lookup>, hit: Hit)
    requires IsOrder(order)
    ensures hit in HitsIn(order, normalize, fields, want, lookups)
            <==> hit in LookupHits(normalize, fields, want, lookups)
  {
    if lookups != [] {
      var n := |lookups| - 1;
      AnyOrderSameHits(order, normalize, fields, want, lookups[..n], hit);
      OneLookupSameHits(order, normalize, fields, want, lookups[n], hit);
    }
  }

  lemma OneLookupSameHits(order: seq<Entry> -> seq<Entry>, normalize: string -> string, fields: seq<string>,
                          want: Option<Parser>, l: Lookup, hit: Hit)
    requires IsOrder(order)
    ensures hit in Hits(fields, want, l.source, WalkAll(order, normalize, l.entries))
            <==> hit in Hits(fields, want, l.source, Walk(normalize, l.entries, "", ""))
  {
    var nodes, visited := Walk(normalize, l.entries, "", ""), WalkAll(order, normalize, l.entries);
    HitsOfNodes(fields, want, l.source, nodes, hit);
    HitsOfNodes(fields, want, l.source, visited, hit);
    forall node ensures node in visited <==> node in nodes {
      AnyOrderSameNodes(order, normalize, l.entries, "", "", node);
    }
  }

  /** Whatever the iteration order, the same rank, source and spelling win. The winner in another order is
      a hit all the same, so the values can differ only if two entries spell the same raw path. */
  lemma IterationOrderDoesNotMatter(order: seq<Entry> -> seq<Entry>, normalize: string -> string, fields: seq<string>,
                                    want: Option<Parser>, lookups: seq<Lookup>)
    requires IsOrder(order)
    ensures var w := Winner(normalize, fields, want, lookups);
            var v := Absorb(None, HitsIn(order, normalize, fields, want, lookups));
            && (w.Some? <==> v.Some?)
            && (w.Some? ==> SameKey(w.value, v.value) && IsHit(normalize, fields, want, lookups, v.value))
  {
    var hits, others := LookupHits(normalize, fields, want, lookups), HitsIn(order, normalize, fields, want, lookups);
    forall hit ensures hit in hits <==> hit in others {
      AnyOrderSameHits(order, normalize, fields, want, lookups, hit);
    }
    SameHitsSameWinner(hits, others);
    if hits != [] {
      LookupHitsAreHits(normalize, fields, want, lookups, Absorb(None, others).value);
    }
  }

  lemma SameHitsSameWinner(a: seq<Hit>, b: seq<Hit>)
    requires forall hit :: hit in a <==> hit in b
    ensures Absorb(None, a).Some? <==> Absorb(None, b).Some?
    ensures Absorb(None, a).Some? ==>
              SameKey(Absorb(None, a).value, Absorb(None, b).value) && Absorb(None, b).value in a
  {
    AbsorbIsLeast(a);
    AbsorbIsLeast(b);
    if b != [] {
      assert b[0] in a;
    }
    if a != [] {
      assert a[0] in b;
      BeatsIsAnOrder(Absorb(None, a).value, Absorb(None, b).value, Absorb(None, b).value);
    }
  }
}
