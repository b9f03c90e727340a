/**
 Regrouping the records of a resource by inferred scope
 (processor/signozlogsnormalizerprocessor/infer.go:12-93, 149-157).
 A record carries what the scan finds in it for the scope name and version, if anything. Scope logs are
 held by position; appending does not disturb the ones already there.
 */
module Regroup {
  import opened Flattening
  import opened Options

  datatype ScopeKey = ScopeKey(name: string, version: string)

  /** Parsed names and versions are never blank (parseNonEmptyString). */
  type NonEmpty = s: string | s != "" witness "x"

  datatype Record = Record(id: nat, name: Option<NonEmpty>, version: Option<NonEmpty>)

  /** What MoveTo leaves behind. */
  const MOVED := Record(0, None, None)

  datatype ScopeLogs = ScopeLogs(key: ScopeKey, attributes: string, schemaUrl: string, records: seq<Record>)

  /** The scope a record belongs to: only a missing name or version is inferred. */
  function KeyOf(current: ScopeKey, r: Record): ScopeKey {
    ScopeKey(if current.name == "" && r.name.Some? then r.name.value else current.name,
             if current.version == "" && r.version.Some? then r.version.value else current.version)
  }

  /** A record that was moved once stays where it is. */
  lemma KeyOfIsStable(current: ScopeKey, r: Record)
    ensures KeyOf(KeyOf(current, r), r) == KeyOf(current, r)
  {
  }

  // ---- what a pass over one scope yields ----

  /** The records of a scope that belong under a key, in order. */
  function Under(current: ScopeKey, records: seq<Record>, key: ScopeKey): seq<Record> {
    if records == [] then []
    else
      var n := |records| - 1;
      Under(current, records[..n], key) + if KeyOf(current, records[n]) == key then [records[n]] else []
  }

  function Trim(s: ScopeLogs): ScopeLogs {
    s.(records := Under(s.key, s.records, s.key))
  }

  function IndexOf(scopes: seq<ScopeLogs>, key: ScopeKey): (r: Option<nat>)
    ensures r.None? <==> forall i :: 0 <= i < |scopes| ==> scopes[i].key != key
    ensures r.Some? ==> r.value < |scopes| && scopes[r.value].key == key
  {
    if scopes == [] then None
    else
      var n: nat := |scopes| - 1;
      if scopes[n].key == key then Some(n) else IndexOf(scopes[..n], key)
  }

  /** One record more: left alone, or added to the new scope with its key, or given a new scope. */
  function Place(s: ScopeLogs, groups: seq<ScopeLogs>, r: Record): seq<ScopeLogs> {
    var key := KeyOf(s.key, r);
    if key == s.key then groups
    else
      match IndexOf(groups, key)
      case Some(i) => groups[i := groups[i].(records := groups[i].records + [r])]
      case None => groups + [s.(key := key, records := [r])]
  }

  /** The scopes a pass over records of s appends. */
  function Spawned(s: ScopeLogs, records: seq<Record>): seq<ScopeLogs> {
    if records == [] then []
    else Place(s, Spawned(s, records[..|records| - 1]), records[|records| - 1])
  }

  ghost predicate KeysDistinct(scopes: seq<ScopeLogs>) {
    forall i, j :: 0 <= i < j < |scopes| ==> scopes[i].key != scopes[j].key
  }

  ghost predicate GroupOk(s: ScopeLogs, records: seq<Record>, g: ScopeLogs) {
    && g.key != s.key && g.attributes == s.attributes && g.schemaUrl == s.schemaUrl
    && g.records == Under(s.key, records, g.key) && g.records != []
  }

  /** The new scopes have distinct keys other than the old one; each holds, in order, exactly the records
      with its key; and every record that must move has its scope. */
  ghost predicate Grouped(s: ScopeLogs, records: seq<Record>, groups: seq<ScopeLogs>) {
    && KeysDistinct(groups)
    && (forall i :: 0 <= i < |groups| ==> GroupOk(s, records, groups[i]))
    && (forall k :: 0 <= k < |records| ==> HasGroup(s, groups, records[k]))
  }

  ghost predicate HasGroup(s: ScopeLogs, groups: seq<ScopeLogs>, r: Record) {
    KeyOf(s.key, r) == s.key || IndexOf(groups, KeyOf(s.key, r)).Some?
  }

  lemma UnderSnoc(current: ScopeKey, records: seq<Record>, r: Record, key: ScopeKey)
    ensures Under(current, records + [r], key)
            == Under(current, records, key) + if KeyOf(current, r) == key then [r] else []
  {
    assert (records + [r])[..|records|] == records;
  }

  /** Every record keeps its scope as long as the keys stay where they are. */
  lemma AllHaveGroups(s: ScopeLogs, records: seq<Record>, r: Record, groups: seq<ScopeLogs>, after: seq<ScopeLogs>)
    requires forall k :: 0 <= k < |records| ==> HasGroup(s, groups, records[k])
    requires |groups| <= |after| && forall i :: 0 <= i < |groups| ==> after[i].key == groups[i].key
    requires HasGroup(s, after, r)
    ensures forall k :: 0 <= k < |records + [r]| ==> HasGroup(s, after, (records + [r])[k])
  {
    forall k | 0 <= k < |records + [r]| ensures HasGroup(s, after, (records + [r])[k]) {
      if k < |records| {
        KeepsGroup(s, groups, after, records[k]);
      }
    }
  }

  lemma StayGroups(s: ScopeLogs, records: seq<Record>, groups: seq<ScopeLogs>, r: Record)
    requires Grouped(s, records, groups) && KeyOf(s.key, r) == s.key
    ensures Grouped(s, records + [r], groups)
  {
    forall i | 0 <= i < |groups| ensures GroupOk(s, records + [r], groups[i]) {
      assert GroupOk(s, records, groups[i]);
      UnderSnoc(s.key, records, r, groups[i].key);
    }
    AllHaveGroups(s, records, r, groups, groups);
  }

  lemma JoinGroup(s: ScopeLogs, records: seq<Record>, groups: seq<ScopeLogs>, r: Record, at: nat)
    requires Grouped(s, records, groups) && at < |groups| && groups[at].key == KeyOf(s.key, r)
    ensures Grouped(s, records + [r], groups[at := groups[at].(records := groups[at].records + [r])])
  {
    var after := groups[at := groups[at].(records := groups[at].records + [r])];
    forall i | 0 <= i < |after| ensures GroupOk(s, records + [r], after[i]) {
      assert GroupOk(s, records, groups[i]);
      UnderSnoc(s.key, records, r, after[i].key);
    }
    assert after[at].key == KeyOf(s.key, r);
    AllHaveGroups(s, records, r, groups, after);
  }

  lemma NewGroup(s: ScopeLogs, records: seq<Record>, groups: seq<ScopeLogs>, r: Record)
    requires Grouped(s, records, groups) && KeyOf(s.key, r) != s.key && IndexOf(groups, KeyOf(s.key, r)).None?
    ensures Grouped(s, records + [r], groups + [s.(key := KeyOf(s.key, r), records := [r])])
  {
    var key := KeyOf(s.key, r);
    var after := groups + [s.(key := key, records := [r])];
    UnderNone(s, records, key, groups);
    forall i | 0 <= i < |after| ensures GroupOk(s, records + [r], after[i]) {
      UnderSnoc(s.key, records, r, after[i].key);
      if i < |groups| {
        assert GroupOk(s, records, groups[i]);
      }
    }
    assert after[|groups|].key == key;
    AllHaveGroups(s, records, r, groups, after);
  }

  lemma PlaceGroups(s: ScopeLogs, records: seq<Record>, groups: seq<ScopeLogs>, r: Record)
    requires Grouped(s, records, groups)
    ensures Grouped(s, records + [r], Place(s, groups, r))
  {
    var key := KeyOf(s.key, r);
    if key == s.key {
      StayGroups(s, records, groups, r);
    } else if IndexOf(groups, key).Some? {
      JoinGroup(s, records, groups, r, IndexOf(groups, key).value);
    } else {
      NewGroup(s, records, groups, r);
    }
  }

  lemma KeepsGroup(s: ScopeLogs, before: seq<ScopeLogs>, after: seq<ScopeLogs>, r: Record)
    requires |before| <= |after| && forall i :: 0 <= i < |before| ==> after[i].key == before[i].key
    requires HasGroup(s, before, r)
    ensures HasGroup(s, after, r)
  {
    if KeyOf(s.key, r) != s.key {
      var i := IndexOf(before, KeyOf(s.key, r)).value;
      assert after[i].key == KeyOf(s.key, r);
    }
  }

  lemma {:induction false} SpawnedGroups(s: ScopeLogs, records: seq<Record>)
    ensures Grouped(s, records, Spawned(s, records))
  {
    if records != [] {
      var n := |records| - 1;
      SpawnedGroups(s, records[..n]);
      PlaceGroups(s, records[..n], Spawned(s, records[..n]), records[n]);
      assert records == records[..n] + [records[n]];
    }
  }

  lemma SpawnedKeysDistinct(s: ScopeLogs, records: seq<Record>)
    ensures KeysDistinct(Spawned(s, records))
  {
    SpawnedGroups(s, records);
  }

  /** No scope has the key, so no record has it. */
  lemma {:induction false} UnderNone(s: ScopeLogs, records: seq<Record>, key: ScopeKey, groups: seq<ScopeLogs>)
    requires key != s.key && IndexOf(groups, key).None?
    requires forall k :: 0 <= k < |records| ==> HasGroup(s, groups, records[k])
    ensures Under(s.key, records, key) == []
  {
    if records != [] {
      var n := |records| - 1;
      assert forall k :: 0 <= k < n ==> records[..n][k] == records[k];
      UnderNone(s, records[..n], key, groups);
    }
  }

  // ---- removing what was marked ----

  function Unmarked<T>(marked: seq<bool>, xs: seq<T>): seq<T> {
    if xs == [] then []
    else
      var n := |xs| - 1;
      Unmarked(marked, xs[..n]) + if n < |marked| && marked[n] then [] else [xs[n]]
  }

  /** Entries past the end of marked are always kept. */
  method RemoveMarked<T>(marked: seq<bool>, xs: seq<T>) returns (kept: seq<T>)
    ensures kept == Unmarked(marked, xs)
  {
    kept := [];
    var i := 0;
    while i < |xs|
      invariant 0 <= i <= |xs| && kept == Unmarked(marked, xs[..i])
    {
      assert xs[..i + 1][..i] == xs[..i];
      if !(i < |marked| && marked[i]) {
        kept := kept + [xs[i]];
      }
      i := i + 1;
    }
    assert xs[..i] == xs;
  }

  lemma {:induction false} NothingMarked<T>(xs: seq<T>)
    ensures Unmarked([], xs) == xs
  {
    if xs != [] {
      NothingMarked(xs[..|xs| - 1]);
    }
  }

  /** Removing the hollow slots leaves the records that stay. */
  lemma {:induction false} UnmarkedIsUnder(current: ScopeKey, records: seq<Record>, slots: seq<Record>,
                                           moved: seq<bool>)
    requires |slots| == |records| <= |moved|
    requires forall i :: 0 <= i < |records| ==> moved[i] == (KeyOf(current, records[i]) != current)
    requires forall i :: 0 <= i < |records| && !moved[i] ==> slots[i] == records[i]
    ensures Unmarked(moved, slots) == Under(current, records, current)
  {
    if records != [] {
      var n := |records| - 1;
      UnmarkedIsUnder(current, records[..n], slots[..n], moved);
    }
  }

  lemma {:induction false} AllStay(current: ScopeKey, records: seq<Record>)
    requires forall i :: 0 <= i < |records| ==> KeyOf(current, records[i]) == current
    ensures Under(current, records, current) == records
  {
    if records != [] {
      AllStay(current, records[..|records| - 1]);
    }
  }

  // ---- the pass over a resource ----

  predicate Emptied(s: ScopeLogs) {
    s.records != [] && Trim(s).records == []
  }

  function SurvivorOf(): ScopeLogs -> seq<ScopeLogs> {
    (s: ScopeLogs) => if Emptied(s) then [] else [Trim(s)]
  }

  function SpawnOf(): ScopeLogs -> seq<ScopeLogs> {
    (s: ScopeLogs) => Spawned(s, s.records)
  }

  /** The scopes that were there, without the records that left and without those the pass emptied, and
      then the new ones of each scope in turn. */
  function Regrouped(scopes: seq<ScopeLogs>): seq<ScopeLogs> {
    Flat(SurvivorOf(), scopes) + Flat(SpawnOf(), scopes)
  }

  lemma {:induction false} UnmarkedConcat<T>(marked: seq<bool>, a: seq<T>, b: seq<T>)
    requires |marked| <= |a|
    ensures Unmarked(marked, a + b) == Unmarked(marked, a) + b
  {
    if b == [] {
      assert a + b == a;
    } else {
      var n := |b| - 1;
      UnmarkedConcat(marked, a, b[..n]);
      assert (a + b)[..|a| + n] == a + b[..n] && b == b[..n] + [b[n]];
    }
  }

  predicate IsMarked(marked: seq<bool>, i: nat) {
    i < |marked| && marked[i]
  }

  lemma {:induction false} UnmarkedFlat<T, R>(f: T -> seq<R>, xs: seq<T>, ys: seq<R>, marked: seq<bool>)
    requires |xs| == |ys|
    requires forall i: nat :: i < |xs| ==> f(xs[i]) == if IsMarked(marked, i) then [] else [ys[i]]
    ensures Unmarked(marked, ys) == Flat(f, xs)
  {
    if xs != [] {
      UnmarkedFlat(f, xs[..|xs| - 1], ys[..|xs| - 1], marked);
    }
  }

  /** Slots of moved records are hollow. */
  ghost predicate SlotsOk(s: ScopeLogs, k: nat, slots: seq<Record>) {
    && |slots| == |s.records|
    && forall i :: 0 <= i < |slots| ==>
         slots[i] == if i < k && KeyOf(s.key, s.records[i]) != s.key then MOVED else s.records[i]
  }

  /** No marks are made until a record moves. */
  ghost predicate MarksOk(s: ScopeLogs, k: nat, moved: seq<bool>) {
    if moved == [] then forall i :: 0 <= i < |s.records| && i < k ==> KeyOf(s.key, s.records[i]) == s.key
    else
      && |moved| == |s.records|
      && (forall i :: 0 <= i < |moved| ==> moved[i] == (i < k && KeyOf(s.key, s.records[i]) != s.key))
      && exists i :: 0 <= i < |moved| && moved[i]
  }

  /** The map leads to the new scope of each key. */
  ghost predicate DestinationsOk(base: nat, groups: seq<ScopeLogs>, regrouped: map<ScopeKey, nat>) {
    && (forall key :: key in regrouped ==>
          base <= regrouped[key] < base + |groups| && groups[regrouped[key] - base].key == key)
    && (forall i :: 0 <= i < |groups| ==> groups[i].key in regrouped)
  }

  /** Where the pass over scope j stands after k records, with groups the scopes appended so far. */
  ghost predicate Passed(before: seq<ScopeLogs>, j: nat, k: nat, groups: seq<ScopeLogs>, scopes: seq<ScopeLogs>,
                         regrouped: map<ScopeKey, nat>, moved: seq<bool>)
  {
    && j < |before| && k <= |before[j].records|
    && Laid(before, j, groups, scopes)
    && SlotsOk(before[j], k, scopes[j].records) && MarksOk(before[j], k, moved) && (moved == [] ==> regrouped == map[])
    && DestinationsOk(|before|, groups, regrouped)
  }

  /** The scopes that were there, but for the records of scope j, and then the groups. */
  ghost predicate Laid(before: seq<ScopeLogs>, j: nat, groups: seq<ScopeLogs>, scopes: seq<ScopeLogs>)
    requires j < |before|
  {
    && |scopes| == |before| + |groups|
    && scopes[j] == before[j].(records := scopes[j].records)
    && (forall i :: 0 <= i < |before| && i != j ==> scopes[i] == before[i])
    && (forall i :: |before| <= i < |scopes| ==> scopes[i] == groups[i - |before|])
  }

  function Mark(moved: seq<bool>, n: nat, k: nat): seq<bool>
    requires k < n && (moved == [] || |moved| == n)
  {
    (if moved == [] then seq(n, _ => false) else moved)[k := true]
  }

  function AfterMove(scopes: seq<ScopeLogs>, j: nat, k: nat, dest: nat): seq<ScopeLogs>
    requires j < |scopes| && dest < |scopes| && k < |scopes[j].records|
  {
    scopes[dest := scopes[dest].(records := scopes[dest].records + [scopes[j].records[k]])]
          [j := scopes[j].(records := scopes[j].records[k := MOVED])]
  }

  lemma SpawnedNext(s: ScopeLogs, k: nat)
    requires k < |s.records|
    ensures Spawned(s, s.records[..k + 1]) == Place(s, Spawned(s, s.records[..k]), s.records[k])
  {
    assert s.records[..k + 1][..k] == s.records[..k];
  }

  lemma MarkOk(s: ScopeLogs, k: nat, moved: seq<bool>)
    requires k < |s.records| && MarksOk(s, k, moved) && KeyOf(s.key, s.records[k]) != s.key
    ensures MarksOk(s, k + 1, Mark(moved, |s.records|, k)) && Mark(moved, |s.records|, k) != []
  {
    assert Mark(moved, |s.records|, k)[k];
  }

  lemma DestinationFound(base: nat, groups: seq<ScopeLogs>, regrouped: map<ScopeKey, nat>, key: ScopeKey)
    requires DestinationsOk(base, groups, regrouped) && KeysDistinct(groups)
    ensures key in regrouped ==> IndexOf(groups, key) == Some(regrouped[key] - base)
    ensures key !in regrouped ==> IndexOf(groups, key).None?
  {
    var found := IndexOf(groups, key);
    if key in regrouped {
      assert groups[regrouped[key] - base].key == key;
      assert groups[found.value].key == key;
    }
  }

  lemma SlotHollowed(s: ScopeLogs, k: nat, slots: seq<Record>)
    requires k < |s.records| && SlotsOk(s, k, slots) && KeyOf(s.key, s.records[k]) != s.key
    ensures SlotsOk(s, k + 1, slots[k := MOVED]) && slots[k] == s.records[k]
  {
  }

  lemma LaidJoin(before: seq<ScopeLogs>, j: nat, k: nat, groups: seq<ScopeLogs>, scopes: seq<ScopeLogs>, i: nat)
    requires j < |before| && Laid(before, j, groups, scopes) && k < |scopes[j].records| && i < |groups|
    ensures Laid(before, j, groups[i := groups[i].(records := groups[i].records + [scopes[j].records[k]])],
                 AfterMove(scopes, j, k, |before| + i))
  {
  }

  lemma LaidNew(before: seq<ScopeLogs>, j: nat, k: nat, groups: seq<ScopeLogs>, scopes: seq<ScopeLogs>, g: ScopeLogs)
    requires j < |before| && Laid(before, j, groups, scopes) && k < |scopes[j].records| && g.records == []
    ensures Laid(before, j, groups + [g.(records := [scopes[j].records[k]])], AfterMove(scopes + [g], j, k, |scopes|))
  {
  }

  /** The record joins the scope its key was given before. */
  lemma JoinPassed(before: seq<ScopeLogs>, j: nat, k: nat, groups: seq<ScopeLogs>, scopes: seq<ScopeLogs>,
                   regrouped: map<ScopeKey, nat>, moved: seq<bool>, key: ScopeKey)
    requires Passed(before, j, k, groups, scopes, regrouped, moved) && KeysDistinct(groups) && k < |before[j].records|
    requires key == KeyOf(before[j].key, before[j].records[k]) != before[j].key && key in regrouped
    ensures |before| <= regrouped[key] < |scopes|
    ensures Passed(before, j, k + 1, Place(before[j], groups, before[j].records[k]),
                   AfterMove(scopes, j, k, regrouped[key]), regrouped, Mark(moved, |before[j].records|, k))
  {
    var s, r := before[j], before[j].records[k];
    var i := regrouped[key] - |before|;
    DestinationFound(|before|, groups, regrouped, key);
    assert Place(s, groups, r) == groups[i := groups[i].(records := groups[i].records + [r])];
    MarkOk(s, k, moved);
    SlotHollowed(s, k, scopes[j].records);
    LaidJoin(before, j, k, groups, scopes, i);
    DestinationsJoin(|before|, groups, regrouped, i, groups[i].(records := groups[i].records + [r]));
  }

  lemma DestinationsJoin(base: nat, groups: seq<ScopeLogs>, regrouped: map<ScopeKey, nat>, i: nat, g: ScopeLogs)
    requires DestinationsOk(base, groups, regrouped) && i < |groups| && g.key == groups[i].key
    ensures DestinationsOk(base, groups[i := g], regrouped)
  {
    assert forall j :: 0 <= j < |groups| ==> groups[i := g][j].key == groups[j].key;
  }

  lemma DestinationsNew(base: nat, groups: seq<ScopeLogs>, regrouped: map<ScopeKey, nat>, g: ScopeLogs)
    requires DestinationsOk(base, groups, regrouped) && g.key !in regrouped
    ensures DestinationsOk(base, groups + [g], regrouped[g.key := base + |groups|])
  {
  }

  lemma AfterNew(scopes: seq<ScopeLogs>, j: nat, k: nat, g: ScopeLogs)
    requires j < |scopes| && k < |scopes[j].records|
    ensures AfterMove(scopes + [g], j, k, |scopes|)[j].records == scopes[j].records[k := MOVED]
  {
  }

  /** The record gets a new scope. */
  lemma NewPassed(before: seq<ScopeLogs>, j: nat, k: nat, groups: seq<ScopeLogs>, scopes: seq<ScopeLogs>,
                  regrouped: map<ScopeKey, nat>, moved: seq<bool>, key: ScopeKey)
    requires Passed(before, j, k, groups, scopes, regrouped, moved) && KeysDistinct(groups) && k < |before[j].records|
    requires key == KeyOf(before[j].key, before[j].records[k]) != before[j].key && key !in regrouped
    ensures var grown := scopes + [before[j].(key := key, records := [])];
            Passed(before, j, k + 1, Place(before[j], groups, before[j].records[k]), AfterMove(grown, j, k, |scopes|),
                   regrouped[key := |scopes|], Mark(moved, |before[j].records|, k))
  {
    var s, r := before[j], before[j].records[k];
    var g := s.(key := key, records := []);
    DestinationFound(|before|, groups, regrouped, key);
    assert Place(s, groups, r) == groups + [g.(records := [r])];
    MarkOk(s, k, moved);
    SlotHollowed(s, k, scopes[j].records);
    AfterNew(scopes, j, k, g);
    LaidNew(before, j, k, groups, scopes, g);
    DestinationsNew(|before|, groups, regrouped, g.(records := [r]));
  }

  /** The record stays. */
  lemma StayPassed(before: seq<ScopeLogs>, j: nat, k: nat, groups: seq<ScopeLogs>, scopes: seq<ScopeLogs>,
                   regrouped: map<ScopeKey, nat>, moved: seq<bool>)
    requires Passed(before, j, k, groups, scopes, regrouped, moved) && k < |before[j].records|
    requires KeyOf(before[j].key, before[j].records[k]) == before[j].key
    ensures Passed(before, j, k + 1, Place(before[j], groups, before[j].records[k]), scopes, regrouped, moved)
  {
  }

  lemma PassedAll(before: seq<ScopeLogs>, j: nat, groups: seq<ScopeLogs>, scopes: seq<ScopeLogs>, records: seq<Record>)
    requires j < |before| && Laid(before, j, groups, scopes)
    ensures scopes[j := scopes[j].(records := records)] == before[j := before[j].(records := records)] + groups
  {
  }

  /** Where the pass over the resource stands after j scopes, with groups the scopes appended so far. */
  lemma NoneMoved(s: ScopeLogs, j: nat, scopes: seq<ScopeLogs>, before: seq<ScopeLogs>, groups: seq<ScopeLogs>,
                  regrouped: map<ScopeKey, nat>)
    requires j < |before| && s == before[j] && Passed(before, j, |s.records|, groups, scopes, regrouped, [])
    ensures scopes == before[j := Trim(s)] + groups && !Emptied(s)
  {
    AllStay(s.key, s.records);
    assert scopes[j].records == s.records;
    PassedAll(before, j, groups, scopes, s.records);
  }

  lemma SomeMoved(s: ScopeLogs, j: nat, moved: seq<bool>, scopes: seq<ScopeLogs>, before: seq<ScopeLogs>,
                  groups: seq<ScopeLogs>, regrouped: map<ScopeKey, nat>)
    requires j < |before| && s == before[j] && Passed(before, j, |s.records|, groups, scopes, regrouped, moved)
    requires moved != []
    ensures var kept := Unmarked(moved, scopes[j].records);
            && scopes[j := scopes[j].(records := kept)] == before[j := Trim(s)] + groups
            && (kept == [] <==> Emptied(s))
  {
    UnmarkedIsUnder(s.key, s.records, scopes[j].records, moved);
    PassedAll(before, j, groups, scopes, Unmarked(moved, scopes[j].records));
  }

  ghost predicate Swept(before: seq<ScopeLogs>, j: nat, groups: seq<ScopeLogs>, scopes: seq<ScopeLogs>,
                        emptied: seq<bool>)
  {
    && j <= |before| && |scopes| == |before| + |groups|
    && (forall i :: 0 <= i < j ==> scopes[i] == Trim(before[i]))
    && (forall i :: j <= i < |before| ==> scopes[i] == before[i])
    && (forall i :: |before| <= i < |scopes| ==> scopes[i] == groups[i - |before|])
    && (emptied == [] || |emptied| == |before|)
    && (forall i: nat :: i < |before| ==> (IsMarked(emptied, i) <==> i < j && Emptied(before[i])))
  }

  lemma SweepMarks(before: seq<ScopeLogs>, j: nat, emptied: seq<bool>)
    requires j < |before| && (emptied == [] || |emptied| == |before|)
    requires forall i: nat :: i < |before| ==> (IsMarked(emptied, i) <==> i < j && Emptied(before[i]))
    ensures var marks := if Emptied(before[j]) then Mark(emptied, |before|, j) else emptied;
            && (marks == [] || |marks| == |before|)
            && forall i: nat :: i < |before| ==> (IsMarked(marks, i) <==> i < j + 1 && Emptied(before[i]))
  {
    var marks := if Emptied(before[j]) then Mark(emptied, |before|, j) else emptied;
    forall i: nat | i < |before| ensures IsMarked(marks, i) <==> i < j + 1 && Emptied(before[i]) {
      assert IsMarked(emptied, i) <==> i < j && Emptied(before[i]);
    }
  }

  lemma SweepOne(before: seq<ScopeLogs>, j: nat, groups: seq<ScopeLogs>, scopes: seq<ScopeLogs>, emptied: seq<bool>,
                 left: ScopeLogs, spawned: seq<ScopeLogs>)
    requires Swept(before, j, groups, scopes, emptied) && j < |before| && left == Trim(before[j])
    ensures Swept(before, j + 1, groups + spawned, scopes[j := left] + spawned,
                  if Emptied(before[j]) then Mark(emptied, |before|, j) else emptied)
  {
    var after := scopes[j := left] + spawned;
    assert forall i :: 0 <= i < |before| ==> after[i] == if i == j then left else scopes[i];
    SweepMarks(before, j, emptied);
  }

  lemma SweptAll(before: seq<ScopeLogs>, groups: seq<ScopeLogs>, scopes: seq<ScopeLogs>, emptied: seq<bool>)
    requires Swept(before, |before|, groups, scopes, emptied) && groups == Flat(SpawnOf(), before)
    ensures Unmarked(emptied, scopes) == Regrouped(before)
  {
    var n := |before|;
    assert scopes == scopes[..n] + groups;
    UnmarkedConcat(emptied, scopes[..n], groups);
    UnmarkedFlat(SurvivorOf(), before, scopes[..n], emptied);
  }

  class ResourceLogs {
    var scopes: seq<ScopeLogs>

    /** An empty copy of the scope under another key; returns its position. */
    method AppendScope(src: ScopeLogs, key: ScopeKey) returns (dest: nat)
      modifies this
      ensures scopes == old(scopes) + [src.(key := key, records := [])] && dest == |old(scopes)|
    {
      dest := |scopes|;
      scopes := scopes + [ScopeLogs(key, src.attributes, src.schemaUrl, [])];
    }

    method ProcessScope(j: nat) returns (emptied: bool)
      requires j < |scopes|
      modifies this
      ensures scopes == old(scopes)[j := Trim(old(scopes)[j])] + Spawned(old(scopes)[j], old(scopes)[j].records)
      ensures emptied == Emptied(old(scopes)[j])
    {
      var s := scopes[j];
      var regrouped, moved := PassRecords(s, j);
      emptied := DropMoved(s, j, moved, old(scopes), Spawned(s, s.records), regrouped);
    }

    /** The loop over the records of a scope. */
    method PassRecords(s: ScopeLogs, j: nat) returns (regrouped: map<ScopeKey, nat>, moved: seq<bool>)
      requires j < |scopes| && s == scopes[j]
      modifies this
      ensures Passed(old(scopes), j, |s.records|, Spawned(s, s.records), scopes, regrouped, moved)
    {
      regrouped, moved := map[], [];
      var k := 0;
      ghost var groups: seq<ScopeLogs> := [];
      while k < |s.records|
        invariant 0 <= k <= |s.records| && groups == Spawned(s, s.records[..k])
        invariant Passed(old(scopes), j, k, groups, scopes, regrouped, moved)
      {
        SpawnedKeysDistinct(s, s.records[..k]);
        SpawnedNext(s, k);
        regrouped, moved := PassRecord(s, j, k, regrouped, moved, old(scopes), groups);
        groups := Place(s, groups, s.records[k]);
        k := k + 1;
      }
      assert s.records[..k] == s.records;
    }

    method PassRecord(s: ScopeLogs, j: nat, k: nat, regrouped: map<ScopeKey, nat>, moved: seq<bool>,
                      ghost before: seq<ScopeLogs>, ghost groups: seq<ScopeLogs>)
      returns (regrouped': map<ScopeKey, nat>, moved': seq<bool>)
      requires Passed(before, j, k, groups, scopes, regrouped, moved) && KeysDistinct(groups)
      requires s == before[j] && k < |s.records|
      modifies this
      ensures Passed(before, j, k + 1, Place(s, groups, s.records[k]), scopes, regrouped', moved')
    {
      if KeyOf(s.key, s.records[k]) == s.key {
        StayPassed(before, j, k, groups, scopes, regrouped, moved);
        regrouped', moved' := regrouped, moved;
      } else {
        regrouped', moved' := MoveRecord(s, j, k, regrouped, moved, before, groups);
      }
    }

    /** Moves record k to the new scope of its key, which is made if need be. */
    method MoveRecord(s: ScopeLogs, j: nat, k: nat, regrouped: map<ScopeKey, nat>, moved: seq<bool>,
                      ghost before: seq<ScopeLogs>, ghost groups: seq<ScopeLogs>)
      returns (regrouped': map<ScopeKey, nat>, moved': seq<bool>)
      requires Passed(before, j, k, groups, scopes, regrouped, moved) && KeysDistinct(groups)
      requires s == before[j] && k < |s.records| && KeyOf(s.key, s.records[k]) != s.key
      modifies this
      ensures Passed(before, j, k + 1, Place(s, groups, s.records[k]), scopes, regrouped', moved')
    {
      var key := KeyOf(s.key, s.records[k]);
      regrouped', moved' := regrouped, moved;
      if key in regrouped {
        JoinPassed(before, j, k, groups, scopes, regrouped, moved, key);
      } else {
        NewPassed(before, j, k, groups, scopes, regrouped, moved, key);
        if moved == [] {
          moved' := seq(|s.records|, _ => false);
        }
        var dest := AppendScope(s, key);
        regrouped' := regrouped[key := dest];
      }
      Move(j, k, regrouped'[key]);
      moved' := moved'[k := true];
    }

    /** Drops what is left of the moved records and tells whether that empties the scope. */
    method DropMoved(s: ScopeLogs, j: nat, moved: seq<bool>, ghost before: seq<ScopeLogs>, ghost groups: seq<ScopeLogs>,
                     ghost regrouped: map<ScopeKey, nat>) returns (emptied: bool)
      requires j < |before| && s == before[j] && Passed(before, j, |s.records|, groups, scopes, regrouped, moved)
      modifies this
      ensures scopes == before[j := Trim(s)] + groups && emptied == Emptied(s)
    {
      if moved == [] {
        NoneMoved(s, j, scopes, before, groups, regrouped);
        return false;
      }
      SomeMoved(s, j, moved, scopes, before, groups, regrouped);
      var kept := RemoveMarked(moved, scopes[j].records);
      scopes := scopes[j := scopes[j].(records := kept)];
      emptied := kept == [];
    }

    /** Moves a record to the end of another scope, leaving its slot hollow. */
    method Move(j: nat, k: nat, dest: nat)
      requires j < |scopes| && k < |scopes[j].records| && dest < |scopes| && dest != j
      modifies this
      ensures scopes == AfterMove(old(scopes), j, k, dest)
    {
      var r := scopes[j].records[k];
      scopes := scopes[dest := scopes[dest].(records := scopes[dest].records + [r])];
      scopes := scopes[j := scopes[j].(records := scopes[j].records[k := MOVED])];
    }

    method ProcessResource()
      modifies this
      ensures scopes == Regrouped(old(scopes))
    {
      var emptied := ProcessScopes();
      SweptAll(old(scopes), Flat(SpawnOf(), old(scopes)), scopes, emptied);
      if emptied == [] {
        NothingMarked(scopes);
      } else {
        scopes := RemoveMarked(emptied, scopes);
      }
    }

    /** The loop over the scopes that were there at the start. */
    method ProcessScopes() returns (emptied: seq<bool>)
      modifies this
      ensures Swept(old(scopes), |old(scopes)|, Flat(SpawnOf(), old(scopes)), scopes, emptied)
    {
      var scopeCount := |scopes|;
      emptied := [];
      var j := 0;
      ghost var groups: seq<ScopeLogs> := [];
      while j < scopeCount
        invariant 0 <= j <= scopeCount && groups == Flat(SpawnOf(), old(scopes)[..j])
        invariant Swept(old(scopes), j, groups, scopes, emptied)
      {
        emptied := SweepScope(j, scopeCount, emptied, old(scopes), groups);
        assert old(scopes)[..j + 1] == old(scopes)[..j] + [old(scopes)[j]];
        FlatSnoc(SpawnOf(), old(scopes)[..j], old(scopes)[j]);
        groups := groups + SpawnOf()(old(scopes)[j]);
        j := j + 1;
      }
      assert old(scopes)[..j] == old(scopes);
    }

    method SweepScope(j: nat, scopeCount: nat, emptied: seq<bool>, ghost before: seq<ScopeLogs>,
                      ghost groups: seq<ScopeLogs>) returns (emptied': seq<bool>)
      requires Swept(before, j, groups, scopes, emptied) && j < |before| == scopeCount
      modifies this
      ensures Swept(before, j + 1, groups + SpawnOf()(before[j]), scopes, emptied')
    {
      ghost var s := before[j];
      assert scopes[j] == s;
      SweepOne(before, j, groups, scopes, emptied, Trim(s), Spawned(s, s.records));
      emptied' := emptied;
      var empty := ProcessScope(j);
      if empty {
        if emptied' == [] {
          emptied' := seq(scopeCount, _ => false);
        }
        emptied' := emptied'[j := true];
      }
    }
  }

  // ---- what regrouping keeps ----

  function RecordsOf(): ScopeLogs -> seq<Record> {
    (s: ScopeLogs) => s.records
  }

  function Records(scopes: seq<ScopeLogs>): seq<Record> {
    Flat(RecordsOf(), scopes)
  }

  function Count(r: Record, records: seq<Record>): nat {
    multiset(records)[r]
  }

  lemma PlaceCount(s: ScopeLogs, groups: seq<ScopeLogs>, x: Record, r: Record)
    ensures Count(r, Records(Place(s, groups, x)))
            == Count(r, Records(groups)) + if KeyOf(s.key, x) != s.key && x == r then 1 else 0
  {
    var key := KeyOf(s.key, x);
    if key != s.key {
      match IndexOf(groups, key)
      case Some(i) =>
        FlatUpdate(RecordsOf(), groups, i, groups[i].(records := groups[i].records + [x]), r);
        ConcatCount(groups[i].records, [x], r);
      case None =>
        FlatSnoc(RecordsOf(), groups, s.(key := key, records := [x]));
        ConcatCount(Records(groups), [x], r);
    }
  }

  /** One record more on either side. */
  lemma UnderCount(s: ScopeLogs, records: seq<Record>, x: Record, r: Record)
    ensures Count(r, Under(s.key, records + [x], s.key))
            == Count(r, Under(s.key, records, s.key)) + if KeyOf(s.key, x) == s.key && x == r then 1 else 0
    ensures Count(r, records + [x]) == Count(r, records) + if x == r then 1 else 0
  {
    UnderSnoc(s.key, records, x, s.key);
    ConcatCount(Under(s.key, records, s.key), [x], r);
    ConcatCount(records, [x], r);
  }

  lemma {:induction false} ScopeCount(s: ScopeLogs, records: seq<Record>, r: Record)
    ensures Count(r, Under(s.key, records, s.key)) + Count(r, Records(Spawned(s, records))) == Count(r, records)
  {
    if records != [] {
      var front, x := records[..|records| - 1], records[|records| - 1];
      assert records == front + [x];
      ScopeCount(s, front, r);
      PlaceCount(s, Spawned(s, front), x, r);
      UnderCount(s, front, x, r);
    }
  }

  lemma {:induction false} PassCount(scopes: seq<ScopeLogs>, r: Record)
    ensures Count(r, Records(Flat(SurvivorOf(), scopes))) + Count(r, Records(Flat(SpawnOf(), scopes)))
            == Count(r, Records(scopes))
  {
    if scopes != [] {
      var front, s := scopes[..|scopes| - 1], scopes[|scopes| - 1];
      PassCount(front, r);
      ScopeCount(s, s.records, r);
      SurvivorRecords(s);
      FlatConcat(RecordsOf(), Flat(SurvivorOf(), front), SurvivorOf()(s));
      FlatConcat(RecordsOf(), Flat(SpawnOf(), front), SpawnOf()(s));
      ConcatCount(Records(Flat(SurvivorOf(), front)), Trim(s).records, r);
      ConcatCount(Records(Flat(SpawnOf(), front)), Records(Spawned(s, s.records)), r);
      ConcatCount(Records(front), s.records, r);
    }
  }

  lemma SurvivorRecords(s: ScopeLogs)
    ensures Records(SurvivorOf()(s)) == Trim(s).records
  {
    if Emptied(s) {
    } else {
      FlatSnoc(RecordsOf(), [], Trim(s));
      assert [] + [Trim(s)] == [Trim(s)];
    }
  }

  /** Every record is there exactly as often as before. */
  lemma RegroupingConservesRecords(scopes: seq<ScopeLogs>)
    ensures multiset(Records(Regrouped(scopes))) == multiset(Records(scopes))
  {
    FlatConcat(RecordsOf(), Flat(SurvivorOf(), scopes), Flat(SpawnOf(), scopes));
    forall r: Record ensures multiset(Records(Regrouped(scopes)))[r] == multiset(Records(scopes))[r] {
      PassCount(scopes, r);
      ConcatCount(Records(Flat(SurvivorOf(), scopes)), Records(Flat(SpawnOf(), scopes)), r);
    }
  }

  lemma {:induction false} UnderMember(current: ScopeKey, records: seq<Record>, key: ScopeKey, r: Record)
    ensures r in Under(current, records, key) <==> r in records && KeyOf(current, r) == key
  {
    if records != [] {
      var n := |records| - 1;
      UnderMember(current, records[..n], key, r);
      assert records == records[..n] + [records[n]];
    }
  }

  /** Where a scope of the result comes from: a scope that was there and was not emptied, less the records
      that left it, or a new scope of one source with exactly that source's records of its key, in order. */
  ghost predicate ComesFrom(s: ScopeLogs, g: ScopeLogs) {
    || (g == Trim(s) && !Emptied(s))
    || GroupOk(s, s.records, g)
  }

  lemma ScopesComeFrom(scopes: seq<ScopeLogs>, g: ScopeLogs)
    requires g in Regrouped(scopes)
    ensures exists i :: 0 <= i < |scopes| && ComesFrom(scopes[i], g)
  {
    if g in Flat(SurvivorOf(), scopes) {
      FlatMember(SurvivorOf(), scopes, g);
      var i :| 0 <= i < |scopes| && g in SurvivorOf()(scopes[i]);
      assert ComesFrom(scopes[i], g);
    } else {
      FlatMember(SpawnOf(), scopes, g);
      var i :| 0 <= i < |scopes| && g in SpawnOf()(scopes[i]);
      SpawnedGroups(scopes[i], scopes[i].records);
      assert ComesFrom(scopes[i], g);
    }
  }

  lemma StayersStay(scopes: seq<ScopeLogs>, i: nat, r: Record)
    requires i < |scopes| && r in scopes[i].records && KeyOf(scopes[i].key, r) == scopes[i].key
    ensures Trim(scopes[i]) in Regrouped(scopes) && r in Trim(scopes[i]).records
  {
    var s := scopes[i];
    UnderMember(s.key, s.records, s.key, r);
    assert Trim(s) in SurvivorOf()(s);
    FlatMember(SurvivorOf(), scopes, Trim(s));
  }

  lemma MoversMove(scopes: seq<ScopeLogs>, i: nat, r: Record) returns (g: ScopeLogs)
    requires i < |scopes| && r in scopes[i].records && KeyOf(scopes[i].key, r) != scopes[i].key
    ensures g in Regrouped(scopes) && GroupOk(scopes[i], scopes[i].records, g)
    ensures g.key == KeyOf(scopes[i].key, r) && r in g.records
  {
    var s := scopes[i];
    var groups, key := Spawned(s, s.records), KeyOf(s.key, r);
    SpawnedGroups(s, s.records);
    assert HasGroup(s, groups, r);
    g := groups[IndexOf(groups, key).value];
    UnderMember(s.key, s.records, key, r);
    assert g in SpawnOf()(s);
    FlatMember(SpawnOf(), scopes, g);
  }

  /** Each record ends up in a scope of its own inferred key, with the attributes and schema it had. */
  lemma RecordsGoHome(scopes: seq<ScopeLogs>, i: nat, r: Record)
    requires i < |scopes| && r in scopes[i].records
    ensures exists g :: g in Regrouped(scopes) && r in g.records && g.key == KeyOf(scopes[i].key, r)
                        && g.attributes == scopes[i].attributes && g.schemaUrl == scopes[i].schemaUrl
  {
    if KeyOf(scopes[i].key, r) == scopes[i].key {
      StayersStay(scopes, i, r);
      assert Trim(scopes[i]) in Regrouped(scopes);
    } else {
      var g := MoversMove(scopes, i, r);
      assert g in Regrouped(scopes);
    }
  }

  /** What is there stays; what is missing is taken from the record, if the record has it. */
  predicate Completes(was: string, found: Option<NonEmpty>, now: string) {
    if was != "" then now == was
    else if found.Some? then now == found.value
    else now == ""
  }

  /** Every record of every scope ends up under a name and a version that complete those of its scope, with the
      attributes and schema it had. */
  lemma MissingPartsAreInferred(scopes: seq<ScopeLogs>, i: nat, r: Record)
    requires i < |scopes| && r in scopes[i].records
    ensures exists g :: g in Regrouped(scopes) && r in g.records
                        && Completes(scopes[i].key.name, r.name, g.key.name)
                        && Completes(scopes[i].key.version, r.version, g.key.version)
                        && g.attributes == scopes[i].attributes && g.schemaUrl == scopes[i].schemaUrl
  {
    RecordsGoHome(scopes, i, r);
  }

  /** And nothing else is there: every record of the result was in a scope that its new scope completes. */
  lemma InferredFromItsScope(scopes: seq<ScopeLogs>, g: ScopeLogs, r: Record)
    requires g in Regrouped(scopes) && r in g.records
    ensures exists i :: 0 <= i < |scopes| && r in scopes[i].records
                        && Completes(scopes[i].key.name, r.name, g.key.name)
                        && Completes(scopes[i].key.version, r.version, g.key.version)
                        && g.attributes == scopes[i].attributes && g.schemaUrl == scopes[i].schemaUrl
  {
    ScopesComeFrom(scopes, g);
    var i :| 0 <= i < |scopes| && ComesFrom(scopes[i], g);
    UnderMember(scopes[i].key, scopes[i].records, g.key, r);
  }

  /** A resource whose scopes all have a name and a version is left exactly as it is. */
  lemma NamedScopesAreLeftAlone(scopes: seq<ScopeLogs>)
    requires forall i :: 0 <= i < |scopes| ==> scopes[i].key.name != "" && scopes[i].key.version != ""
    ensures Regrouped(scopes) == scopes
  {
    SettledPass(scopes);
  }

  predicate NothingToInfer(key: ScopeKey, r: Record) {
    (key.name != "" || r.name.None?) && (key.version != "" || r.version.None?)
  }

  /** More exactly: a resource is left as it is if and only if no record has a part that its scope is missing. */
  lemma LeftAloneIff(scopes: seq<ScopeLogs>)
    ensures Regrouped(scopes) == scopes
            <==> forall i, r :: 0 <= i < |scopes| && r in scopes[i].records ==> NothingToInfer(scopes[i].key, r)
  {
    if Regrouped(scopes) == scopes {
      forall i, r | 0 <= i < |scopes| && r in scopes[i].records ensures NothingToInfer(scopes[i].key, r) {
        assert scopes[i] in Regrouped(scopes);
        RegroupedAreSettled(scopes, scopes[i]);
      }
    }
    if forall i, r :: 0 <= i < |scopes| && r in scopes[i].records ==> NothingToInfer(scopes[i].key, r) {
      forall i, k | 0 <= i < |scopes| && 0 <= k < |scopes[i].records|
        ensures KeyOf(scopes[i].key, scopes[i].records[k]) == scopes[i].key
      {
        assert NothingToInfer(scopes[i].key, scopes[i].records[k]);
      }
      SettledPass(scopes);
    }
  }

  /** A scope whose records are all where they belong. */
  ghost predicate Settled(g: ScopeLogs) {
    forall i :: 0 <= i < |g.records| ==> KeyOf(g.key, g.records[i]) == g.key
  }

  lemma RegroupedAreSettled(scopes: seq<ScopeLogs>, g: ScopeLogs)
    requires g in Regrouped(scopes)
    ensures Settled(g)
  {
    ScopesComeFrom(scopes, g);
    var k :| 0 <= k < |scopes| && ComesFrom(scopes[k], g);
    forall i | 0 <= i < |g.records| ensures KeyOf(g.key, g.records[i]) == g.key {
      UnderMember(scopes[k].key, scopes[k].records, g.key, g.records[i]);
      KeyOfIsStable(scopes[k].key, g.records[i]);
    }
  }

  lemma SettledPass(scopes: seq<ScopeLogs>)
    requires forall i :: 0 <= i < |scopes| ==> Settled(scopes[i])
    ensures Flat(SurvivorOf(), scopes) == scopes && Flat(SpawnOf(), scopes) == []
  {
    forall i | 0 <= i < |scopes| ensures SurvivorOf()(scopes[i]) == [scopes[i]] && SpawnOf()(scopes[i]) == [] {
      SettledScope(scopes[i]);
    }
    FlatSame(SurvivorOf(), scopes);
    FlatNone(SpawnOf(), scopes);
  }

  lemma SettledScope(s: ScopeLogs)
    requires Settled(s)
    ensures SurvivorOf()(s) == [s] && SpawnOf()(s) == []
  {
    AllStay(s.key, s.records);
    NothingSpawned(s, s.records);
  }

  lemma {:induction false} NothingSpawned(s: ScopeLogs, records: seq<Record>)
    requires forall i :: 0 <= i < |records| ==> KeyOf(s.key, records[i]) == s.key
    ensures Spawned(s, records) == []
  {
    if records != [] {
      NothingSpawned(s, records[..|records| - 1]);
    }
  }

  /** The appended scopes need no visit: a second pass changes nothing. */
  lemma RegroupingIsIdempotent(scopes: seq<ScopeLogs>)
    ensures Regrouped(Regrouped(scopes)) == Regrouped(scopes)
  {
    var once := Regrouped(scopes);
    forall i | 0 <= i < |once| ensures Settled(once[i]) {
      RegroupedAreSettled(scopes, once[i]);
    }
    SettledPass(once);
  }
}
