/**
 What the scan of the logs normalizer finds (processor/signozlogsnormalizerprocessor/fields.go:168-207), told by
 the entries of a log and not by the walk: an entry is reached by a chain of entries, each in the map before it,
 and its path is the keys of the chain joined by dots.
 */
module FieldPaths {
  import opened FieldScan
  import opened Options

  /** A chain of entries from a map inwards. */
  predicate Leads(entries: seq<Entry>, chain: seq<Entry>) {
    && chain != [] && chain[0] in entries
    && (|chain| == 1 || (chain[0].value.Map? && Leads(chain[0].value.entries, chain[1..])))
  }

  /** The keys of a chain, spelled by f and joined by dots. */
  function Dotted(f: string -> string, chain: seq<Entry>): string
    requires chain != []
  {
    f(chain[0].key) + if |chain| == 1 then "" else "." + Dotted(f, chain[1..])
  }

  function Verbatim(): string -> string {
    (key: string) => key
  }

  function NodeOf(normalize: string -> string, chain: seq<Entry>, prefix: string, rawPrefix: string): Node
    requires chain != []
  {
    var last := chain[|chain| - 1];
    Node(prefix + Dotted(normalize, chain), rawPrefix + Dotted(Verbatim(), chain), last.key, last.value)
  }

  lemma OneLink(normalize: string -> string, e: Entry, prefix: string, rawPrefix: string)
    ensures NodeOf(normalize, [e], prefix, rawPrefix) == NodeAt(normalize, e, prefix, rawPrefix)
  {
    assert normalize(e.key) + "" == normalize(e.key) && e.key + "" == e.key;
  }

  lemma OneLinkMore(normalize: string -> string, e: Entry, inner: seq<Entry>, prefix: string, rawPrefix: string)
    requires inner != []
    ensures NodeOf(normalize, [e] + inner, prefix, rawPrefix)
            == NodeOf(normalize, inner, prefix + normalize(e.key) + ".", rawPrefix + e.key + ".")
  {
    var chain := [e] + inner;
    assert chain[1..] == inner;
    assert prefix + Dotted(normalize, chain) == prefix + normalize(e.key) + "." + Dotted(normalize, inner);
    assert rawPrefix + Dotted(Verbatim(), chain) == rawPrefix + e.key + "." + Dotted(Verbatim(), inner);
  }

  /** Every node of a walk is at the end of a chain. */
  lemma {:induction false} WalkedIsLed(normalize: string -> string, entries: seq<Entry>, prefix: string,
                                       rawPrefix: string, node: Node) returns (chain: seq<Entry>)
    requires node in Walk(normalize, entries, prefix, rawPrefix)
    ensures Leads(entries, chain) && node == NodeOf(normalize, chain, prefix, rawPrefix)
    decreases entries
  {
    WalkVisits(normalize, entries, prefix, rawPrefix, node);
    var i :| 0 <= i < |entries| && Visits(normalize, entries[i], prefix, rawPrefix, node);
    var e := entries[i];
    var at := NodeAt(normalize, e, prefix, rawPrefix);
    if node == at {
      chain := [e];
      OneLink(normalize, e, prefix, rawPrefix);
    } else {
      var inner := WalkedIsLed(normalize, e.value.entries, at.path + ".", at.rawPath + ".", node);
      chain := [e] + inner;
      assert chain[1..] == inner;
      OneLinkMore(normalize, e, inner, prefix, rawPrefix);
    }
  }

  /** Every chain ends at a node of the walk. */
  lemma {:induction false} LedIsWalked(normalize: string -> string, entries: seq<Entry>, prefix: string,
                                       rawPrefix: string, chain: seq<Entry>)
    requires Leads(entries, chain)
    ensures NodeOf(normalize, chain, prefix, rawPrefix) in Walk(normalize, entries, prefix, rawPrefix)
    decreases |chain|
  {
    var e, inner := chain[0], chain[1..];
    var i :| 0 <= i < |entries| && entries[i] == e;
    var at := NodeAt(normalize, e, prefix, rawPrefix);
    var node := NodeOf(normalize, chain, prefix, rawPrefix);
    assert chain == [e] + inner;
    if inner == [] {
      OneLink(normalize, e, prefix, rawPrefix);
    } else {
      OneLinkMore(normalize, e, inner, prefix, rawPrefix);
      LedIsWalked(normalize, e.value.entries, at.path + ".", at.rawPath + ".", inner);
    }
    assert Visits(normalize, entries[i], prefix, rawPrefix, node);
    WalkVisits(normalize, entries, prefix, rawPrefix, node);
  }

  /** The chain leads to a value that parses, under the path of the first field that is spelled so. */
  ghost predicate Offers(normalize: string -> string, fields: seq<string>, parse: Parser, lookup: Lookup,
                         chain: seq<Entry>, hit: Hit)
  {
    && Leads(lookup.entries, chain)
    && hit.rank < |fields| && fields[hit.rank] == Dotted(normalize, chain)
    && (forall r :: 0 <= r < hit.rank ==> fields[r] != Dotted(normalize, chain))
    && hit.source == lookup.source && hit.rawPath == Dotted(Verbatim(), chain)
    && hit.key == chain[|chain| - 1].key && parse(chain[|chain| - 1].value) == Some(hit.found)
  }

  ghost predicate Offered(normalize: string -> string, fields: seq<string>, want: Option<Parser>,
                          lookups: seq<Lookup>, hit: Hit)
  {
    && want.Some?
    && exists i: nat, chain :: i < |lookups| && Offers(normalize, fields, want.value, lookups[i], chain, hit)
  }

  lemma {:induction false} RankIsFirst(fields: seq<string>, path: string, r: nat)
    ensures RankOf(fields, path) == Some(r)
            <==> r < |fields| && fields[r] == path && forall q :: 0 <= q < r ==> fields[q] != path
  {
    if fields != [] {
      RankIsFirst(fields[1..], path, if r > 0 then r - 1 else 0);
      if r > 0 && RankOf(fields, path) == Some(r) {
        assert forall q :: 1 <= q < r ==> fields[q] == fields[1..][q - 1];
      }
      if r > 0 && r < |fields| {
        assert fields[r] == fields[1..][r - 1] && forall q :: 0 <= q < r - 1 ==> fields[1..][q] == fields[q + 1];
      }
    }
  }

  lemma NodeOffers(normalize: string -> string, fields: seq<string>, want: Option<Parser>, lookup: Lookup,
                   chain: seq<Entry>, hit: Hit)
    requires want.Some? && Leads(lookup.entries, chain)
    ensures hit in NodeHits(fields, want, lookup.source, NodeOf(normalize, chain, "", ""))
            <==> Offers(normalize, fields, want.value, lookup, chain, hit)
  {
    var node := NodeOf(normalize, chain, "", "");
    assert node.path == Dotted(normalize, chain) && node.rawPath == Dotted(Verbatim(), chain);
    RankIsFirst(fields, node.path, hit.rank);
  }

  lemma HitsAreOffered(normalize: string -> string, fields: seq<string>, want: Option<Parser>, lookups: seq<Lookup>,
                       hit: Hit)
    ensures IsHit(normalize, fields, want, lookups, hit) <==> Offered(normalize, fields, want, lookups, hit)
  {
    if IsHit(normalize, fields, want, lookups, hit) {
      var i: nat :| i < |lookups| && HitAt(normalize, fields, want, lookups[i], hit);
      var node :| node in Walk(normalize, lookups[i].entries, "", "")
                  && hit in NodeHits(fields, want, lookups[i].source, node);
      var chain := WalkedIsLed(normalize, lookups[i].entries, "", "", node);
      NodeOffers(normalize, fields, want, lookups[i], chain, hit);
    }
    if Offered(normalize, fields, want, lookups, hit) {
      var i: nat, chain :| i < |lookups| && Offers(normalize, fields, want.value, lookups[i], chain, hit);
      LedIsWalked(normalize, lookups[i].entries, "", "", chain);
      NodeOffers(normalize, fields, want, lookups[i], chain, hit);
      assert HitAt(normalize, fields, want, lookups[i], hit);
    }
  }

  /** A target that is wanted is found exactly when some entry, at any depth of any source, is spelled like one of
      its fields and parses; and the winner is such an entry, with the lowest rank, of those in the first source,
      and of those with the spelling that sorts first. */
  lemma WinnerIsTheFirstOffer(normalize: string -> string, fields: seq<string>, want: Option<Parser>,
                              lookups: seq<Lookup>)
    ensures Winner(normalize, fields, want, lookups).Some?
            <==> exists hit :: Offered(normalize, fields, want, lookups, hit)
    ensures Winner(normalize, fields, want, lookups).Some? ==>
              && Offered(normalize, fields, want, lookups, Winner(normalize, fields, want, lookups).value)
              && forall hit :: Offered(normalize, fields, want, lookups, hit) ==>
                                 NotAfter(Winner(normalize, fields, want, lookups).value, hit)
  {
    WinnerIsTheLeastHit(normalize, fields, want, lookups);
    forall hit
      ensures IsHit(normalize, fields, want, lookups, hit) <==> Offered(normalize, fields, want, lookups, hit)
    {
      HitsAreOffered(normalize, fields, want, lookups, hit);
    }
  }
}
