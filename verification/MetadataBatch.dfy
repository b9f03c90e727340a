/**
 Metadata rows of one metrics batch, deduplicated by identity (exporter/signozclickhousemetrics/batch.go:34-81).
 The clock is a parameter.
 */
module MetadataBatch {

  const MAX_INT64 := 0x7FFF_FFFF_FFFF_FFFF

  datatype MetaKey = MetaKey(temporality: nat, metricName: string, attrName: string, attrType: string,
                             attrDatatype: string, attrStringValue: string)

  datatype Metadata = Metadata(key: MetaKey, description: string, unit: string, typ: nat, isMonotonic: bool,
                               firstReported: int, lastReported: int)

  datatype Attribute = Attribute(name: string, datatype_: string, value: string)

  datatype Metric = Metric(name: string, description: string, unit: string, typ: nat, temporality: nat,
                           isMonotonic: bool)

  // ---- what the rows say about everything mentioned ----

  ghost predicate Mentioned(history: seq<Metadata>, key: MetaKey) {
    exists i :: 0 <= i < |history| && history[i].key == key
  }

  ghost predicate FirstMention(history: seq<Metadata>, i: nat) {
    i < |history| && forall j :: 0 <= j < i ==> history[j].key != history[i].key
  }

  /** The row's window is the narrowest around all windows of its identity; the rest is from the first mention. */
  ghost predicate RowOk(history: seq<Metadata>, row: Metadata) {
    && (exists i: nat ::
          FirstMention(history, i)
          && row == history[i].(firstReported := row.firstReported, lastReported := row.lastReported))
    && (forall i :: 0 <= i < |history| && history[i].key == row.key ==>
                      row.firstReported <= history[i].firstReported && history[i].lastReported <= row.lastReported)
    && (exists i :: 0 <= i < |history| && history[i].key == row.key && history[i].firstReported == row.firstReported)
    && (exists i :: 0 <= i < |history| && history[i].key == row.key && history[i].lastReported == row.lastReported)
  }

  /** The map leads to each row by its identity, and to nothing else. */
  ghost predicate ExactIndex(rows: seq<Metadata>, index: map<MetaKey, nat>) {
    && (forall key :: key in index ==> index[key] < |rows| && rows[index[key]].key == key)
    && (forall i: nat :: i < |rows| ==> rows[i].key in index && index[rows[i].key] == i)
  }

  /** The map is an exact index of the rows, and every identity mentioned has its row. */
  ghost predicate Indexed(history: seq<Metadata>, rows: seq<Metadata>, index: map<MetaKey, nat>) {
    && ExactIndex(rows, index)
    && (forall key :: key in index <==> Mentioned(history, key))
    && (forall i :: 0 <= i < |rows| ==> RowOk(history, rows[i]))
  }

  function Widen(row: Metadata, first: int, last: int): Metadata {
    row.(firstReported := if first < row.firstReported then first else row.firstReported,
         lastReported := if last > row.lastReported then last else row.lastReported)
  }

  lemma FirstStays(history: seq<Metadata>, m: Metadata, i: nat)
    requires FirstMention(history, i)
    ensures FirstMention(history + [m], i) && (history + [m])[i] == history[i]
  {
  }

  lemma OtherRowStays(history: seq<Metadata>, m: Metadata, row: Metadata)
    requires RowOk(history, row) && row.key != m.key
    ensures RowOk(history + [m], row)
  {
    var after := history + [m];
    var i: nat :| FirstMention(history, i)
                  && row == history[i].(firstReported := row.firstReported, lastReported := row.lastReported);
    FirstStays(history, m, i);
    var f :| 0 <= f < |history| && history[f].key == row.key && history[f].firstReported == row.firstReported;
    var l :| 0 <= l < |history| && history[l].key == row.key && history[l].lastReported == row.lastReported;
    assert after[f] == history[f] && after[l] == history[l];
  }

  lemma RowWidens(history: seq<Metadata>, m: Metadata, row: Metadata)
    requires RowOk(history, row) && row.key == m.key
    ensures RowOk(history + [m], Widen(row, m.firstReported, m.lastReported))
  {
    var after := history + [m];
    var wide := Widen(row, m.firstReported, m.lastReported);
    var i: nat :| FirstMention(history, i)
                  && row == history[i].(firstReported := row.firstReported, lastReported := row.lastReported);
    FirstStays(history, m, i);
    assert wide == after[i].(firstReported := wide.firstReported, lastReported := wide.lastReported);
    var f :| 0 <= f < |history| && history[f].key == row.key && history[f].firstReported == row.firstReported;
    var l :| 0 <= l < |history| && history[l].key == row.key && history[l].lastReported == row.lastReported;
    assert after[f] == history[f] && after[l] == history[l] && after[|history|] == m;
    assert exists e :: 0 <= e < |after| && after[e].key == wide.key && after[e].firstReported == wide.firstReported;
    assert exists e :: 0 <= e < |after| && after[e].key == wide.key && after[e].lastReported == wide.lastReported;
  }

  lemma NewRow(history: seq<Metadata>, m: Metadata)
    requires !Mentioned(history, m.key)
    ensures RowOk(history + [m], m)
  {
    var after := history + [m];
    assert after[|history|] == m && FirstMention(after, |history|);
  }

  lemma MentionedNext(history: seq<Metadata>, m: Metadata)
    ensures forall key :: Mentioned(history + [m], key) <==> Mentioned(history, key) || key == m.key
  {
    var after := history + [m];
    forall key ensures Mentioned(after, key) <==> Mentioned(history, key) || key == m.key {
      if Mentioned(history, key) {
        var i :| 0 <= i < |history| && history[i].key == key;
        assert after[i].key == key;
      }
      assert after[|history|] == m;
    }
  }

  lemma SameKeysSameIndex(rows: seq<Metadata>, index: map<MetaKey, nat>, at: nat, row: Metadata)
    requires ExactIndex(rows, index) && at < |rows| && row.key == rows[at].key
    ensures ExactIndex(rows[at := row], index)
  {
    var after := rows[at := row];
    assert forall i: nat :: i < |rows| ==> after[i].key == rows[i].key;
  }

  lemma WidenIndexed(history: seq<Metadata>, rows: seq<Metadata>, index: map<MetaKey, nat>, m: Metadata)
    requires Indexed(history, rows, index) && m.key in index
    ensures var i := index[m.key];
            Indexed(history + [m], rows[i := Widen(rows[i], m.firstReported, m.lastReported)], index)
  {
    var at := index[m.key];
    var after := rows[at := Widen(rows[at], m.firstReported, m.lastReported)];
    MentionedNext(history, m);
    SameKeysSameIndex(rows, index, at, after[at]);
    forall i | 0 <= i < |after| ensures RowOk(history + [m], after[i]) {
      if i == at {
        RowWidens(history, m, rows[at]);
      } else {
        OtherRowStays(history, m, rows[i]);
      }
    }
  }

  lemma AppendIndex(rows: seq<Metadata>, index: map<MetaKey, nat>, m: Metadata)
    requires ExactIndex(rows, index) && m.key !in index
    ensures ExactIndex(rows + [m], index[m.key := |rows|])
  {
  }

  lemma AppendRows(history: seq<Metadata>, rows: seq<Metadata>, m: Metadata)
    requires !Mentioned(history, m.key)
    requires forall i :: 0 <= i < |rows| ==> RowOk(history, rows[i]) && rows[i].key != m.key
    ensures forall i :: 0 <= i < |rows + [m]| ==> RowOk(history + [m], (rows + [m])[i])
  {
    NewRow(history, m);
    forall i | 0 <= i < |rows + [m]| ensures RowOk(history + [m], (rows + [m])[i]) {
      if i < |rows| {
        OtherRowStays(history, m, rows[i]);
      }
    }
  }

  lemma AppendIndexed(history: seq<Metadata>, rows: seq<Metadata>, index: map<MetaKey, nat>, m: Metadata)
    requires Indexed(history, rows, index) && m.key !in index
    ensures Indexed(history + [m], rows + [m], index[m.key := |rows|])
  {
    MentionedNext(history, m);
    AppendIndex(rows, index, m);
    AppendRows(history, rows, m);
  }

  /** What was mentioned determines every row: two batches told the same have the same row for each identity. */
  lemma RowsAreDetermined(history: seq<Metadata>, a: Metadata, b: Metadata)
    requires RowOk(history, a) && RowOk(history, b) && a.key == b.key
    ensures a == b
  {
    var i: nat :| FirstMention(history, i)
                  && a == history[i].(firstReported := a.firstReported, lastReported := a.lastReported);
    var j: nat :| FirstMention(history, j)
                  && b == history[j].(firstReported := b.firstReported, lastReported := b.lastReported);
    assert history[i].key == history[j].key && i == j;
    var f :| 0 <= f < |history| && history[f].key == a.key && history[f].firstReported == a.firstReported;
    var g :| 0 <= g < |history| && history[g].key == b.key && history[g].firstReported == b.firstReported;
    var l :| 0 <= l < |history| && history[l].key == a.key && history[l].lastReported == a.lastReported;
    var k :| 0 <= k < |history| && history[k].key == b.key && history[k].lastReported == b.lastReported;
    assert a.firstReported == b.firstReported && a.lastReported == b.lastReported;
  }

  /** There are as many rows as identities, and no two rows share one. */
  lemma OneRowPerIdentity(history: seq<Metadata>, rows: seq<Metadata>, index: map<MetaKey, nat>)
    requires Indexed(history, rows, index)
    ensures forall i, j :: 0 <= i < j < |rows| ==> rows[i].key != rows[j].key
    ensures forall i :: 0 <= i < |history| ==> Mentioned(rows, history[i].key)
  {
    forall i, j | 0 <= i < j < |rows| ensures rows[i].key != rows[j].key {
      assert index[rows[i].key] == i && index[rows[j].key] == j;
    }
    forall i | 0 <= i < |history| ensures Mentioned(rows, history[i].key) {
      assert Mentioned(history, history[i].key);
      assert rows[index[history[i].key]].key == history[i].key;
    }
  }

  // ---- the rows, told by what was passed in ----

  /** One attribute of one call, with the times that count. */
  datatype Told = Told(metric: Metric, attrType: string, attribute: Attribute, first: int, last: int)

  /** The row has the six values that identify what was told. */
  predicate Identifies(row: Metadata, x: Told) {
    && row.key.temporality == x.metric.temporality && row.key.metricName == x.metric.name
    && row.key.attrName == x.attribute.name && row.key.attrType == x.attrType
    && row.key.attrDatatype == x.attribute.datatype_ && row.key.attrStringValue == x.attribute.value
  }

  predicate Describes(row: Metadata, x: Told) {
    && row.description == x.metric.description && row.unit == x.metric.unit
    && row.typ == x.metric.typ && row.isMonotonic == x.metric.isMonotonic
  }

  predicate Covers(row: Metadata, x: Told) {
    row.firstReported <= x.first && x.last <= row.lastReported
  }

  /** The same six values. */
  predicate Agree(x: Told, y: Told) {
    && x.metric.temporality == y.metric.temporality && x.metric.name == y.metric.name
    && x.attribute.name == y.attribute.name && x.attrType == y.attrType
    && x.attribute.datatype_ == y.attribute.datatype_ && x.attribute.value == y.attribute.value
  }

  /** The mentions are what was told. */
  ghost predicate Echo(told: seq<Told>, history: seq<Metadata>) {
    && |told| == |history|
    && forall i :: 0 <= i < |told| ==> Identifies(history[i], told[i]) && Describes(history[i], told[i])
                                       && history[i].firstReported == told[i].first
                                       && history[i].lastReported == told[i].last
  }

  /** Whatever was told is in exactly one row, which has its six values and covers its times. */
  lemma ToldOnceEach(told: seq<Told>, history: seq<Metadata>, rows: seq<Metadata>, index: map<MetaKey, nat>, i: nat)
    requires Echo(told, history) && Indexed(history, rows, index) && i < |told|
    ensures exists k :: 0 <= k < |rows| && Identifies(rows[k], told[i]) && Covers(rows[k], told[i])
    ensures forall j, k :: 0 <= j < k < |rows| ==> !(Identifies(rows[j], told[i]) && Identifies(rows[k], told[i]))
  {
    OneRowPerIdentity(history, rows, index);
    assert Mentioned(rows, history[i].key);
    var k :| 0 <= k < |rows| && rows[k].key == history[i].key;
    assert RowOk(history, rows[k]);
    assert Identifies(rows[k], told[i]) && Covers(rows[k], told[i]);
  }

  /** Two attributes, of one call or of two, share a row if and only if temporality, metric name, attribute name,
      attribute type, datatype and value all agree. */
  lemma SharedRowIff(told: seq<Told>, history: seq<Metadata>, rows: seq<Metadata>, index: map<MetaKey, nat>,
                     i: nat, j: nat)
    requires Echo(told, history) && Indexed(history, rows, index) && i < |told| && j < |told|
    ensures (exists k :: 0 <= k < |rows| && Identifies(rows[k], told[i]) && Identifies(rows[k], told[j]))
            <==> Agree(told[i], told[j])
  {
    ToldOnceEach(told, history, rows, index, i);
    var k :| 0 <= k < |rows| && Identifies(rows[k], told[i]);
    assert Agree(told[i], told[j]) ==> Identifies(rows[k], told[j]);
  }

  /** A row is about something that was told: its description, unit, type and monotonicity are from the first of its
      identity, its times the least first and the greatest last. */
  lemma RowsAreTold(told: seq<Told>, history: seq<Metadata>, row: Metadata)
    requires Echo(told, history) && RowOk(history, row)
    ensures exists i :: 0 <= i < |told| && Identifies(row, told[i]) && Describes(row, told[i])
                        && forall j :: 0 <= j < i ==> !Agree(told[j], told[i])
    ensures forall i :: 0 <= i < |told| && Identifies(row, told[i]) ==> Covers(row, told[i])
    ensures exists i :: 0 <= i < |told| && Identifies(row, told[i]) && told[i].first == row.firstReported
    ensures exists i :: 0 <= i < |told| && Identifies(row, told[i]) && told[i].last == row.lastReported
  {
    var i: nat :| FirstMention(history, i)
                  && row == history[i].(firstReported := row.firstReported, lastReported := row.lastReported);
    forall j | 0 <= j < i ensures !Agree(told[j], told[i]) {
      assert history[j].key != history[i].key;
    }
    assert Identifies(row, told[i]) && Describes(row, told[i]);
    forall j | 0 <= j < |told| && Identifies(row, told[j]) ensures Covers(row, told[j]) {
      assert history[j].key == row.key;
    }
    var f :| 0 <= f < |history| && history[f].key == row.key && history[f].firstReported == row.firstReported;
    assert Identifies(row, told[f]);
    var l :| 0 <= l < |history| && history[l].key == row.key && history[l].lastReported == row.lastReported;
    assert Identifies(row, told[l]);
  }

  /** The rows that were there, with wider times at most, and then new ones. */
  ghost predicate Grown(before: seq<Metadata>, after: seq<Metadata>) {
    && |before| <= |after|
    && forall i :: 0 <= i < |before| ==>
         && after[i] == before[i].(firstReported := after[i].firstReported, lastReported := after[i].lastReported)
         && after[i].firstReported <= before[i].firstReported && before[i].lastReported <= after[i].lastReported
  }

  /** At most one row more, which is then the given one. */
  ghost predicate GrownBy(before: seq<Metadata>, after: seq<Metadata>, row: Metadata) {
    Grown(before, after) && (|after| == |before| || (|after| == |before| + 1 && after[|before|] == row))
  }

  /** A row of a metric and one of its attributes, whatever its times. */
  predicate IsRowOf(row: Metadata, m: Metric, attrType: string, a: Attribute) {
    Identifies(row, Told(m, attrType, a, 0, 0)) && Describes(row, Told(m, attrType, a, 0, 0))
  }

  ghost predicate IsRowOfOne(row: Metadata, m: Metric, attrType: string, attributes: seq<Attribute>) {
    exists k :: 0 <= k < |attributes| && IsRowOf(row, m, attrType, attributes[k])
  }

  ghost predicate NewRows(rows: seq<Metadata>, from: nat, m: Metric, attrType: string, attributes: seq<Attribute>) {
    forall i :: from <= i < |rows| ==> IsRowOfOne(rows[i], m, attrType, attributes)
  }

  lemma NewRowsNext(before: seq<Metadata>, rows: seq<Metadata>, after: seq<Metadata>, m: Metric, attrType: string,
                    done: seq<Attribute>, a: Attribute, row: Metadata)
    requires Grown(before, rows) && NewRows(rows, |before|, m, attrType, done) && GrownBy(rows, after, row)
    requires IsRowOf(row, m, attrType, a)
    ensures Grown(before, after) && NewRows(after, |before|, m, attrType, done + [a])
  {
    forall i | |before| <= i < |after| ensures IsRowOfOne(after[i], m, attrType, done + [a]) {
      if i < |rows| {
        assert IsRowOfOne(rows[i], m, attrType, done);
        var k :| 0 <= k < |done| && IsRowOf(rows[i], m, attrType, done[k]);
        assert IsRowOf(after[i], m, attrType, (done + [a])[k]);
      } else {
        assert IsRowOf(after[i], m, attrType, (done + [a])[|done|]);
      }
    }
  }

  lemma TellNext(m: Metric, attrType: string, attributes: seq<Attribute>, i: nat, first: int, last: int)
    requires i < |attributes|
    ensures Tell(m, attrType, attributes[..i + 1], first, last)
            == Tell(m, attrType, attributes[..i], first, last) + [Told(m, attrType, attributes[i], first, last)]
  {
  }

  lemma EchoNext(told: seq<Told>, history: seq<Metadata>, x: Told, row: Metadata)
    requires Echo(told, history) && Identifies(row, x) && Describes(row, x)
    requires row.firstReported == x.first && row.lastReported == x.last
    ensures Echo(told + [x], history + [row])
  {
  }

  lemma WidenGrows(rows: seq<Metadata>, at: nat, row: Metadata)
    requires at < |rows|
    ensures GrownBy(rows, rows[at := Widen(rows[at], row.firstReported, row.lastReported)], row)
  {
  }

  lemma AppendGrows(rows: seq<Metadata>, row: Metadata)
    ensures GrownBy(rows, rows + [row], row)
  {
  }

  function Tell(m: Metric, attrType: string, attributes: seq<Attribute>, first: int, last: int): seq<Told> {
    seq(|attributes|, k requires 0 <= k < |attributes| => Told(m, attrType, attributes[k], first, last))
  }

  class Batch {
    var metadata: seq<Metadata>
    var metaIdx: map<MetaKey, nat>
    ghost var history: seq<Metadata>
    ghost var told: seq<Told>

    ghost predicate Valid()
      reads this
    {
      Indexed(history, metadata, metaIdx) && Echo(told, history)
    }

    constructor ()
      ensures Valid() && history == [] && told == [] && metadata == []
    {
      metadata, metaIdx, history, told := [], map[], [], [];
    }

    /** A first time that was never set makes both times now. */
    method AddMetadata(m: Metric, attrType: string, attributes: seq<Attribute>, firstSeen: int, lastSeen: int, now: int)
      requires Valid()
      modifies this
      ensures Valid() && Grown(old(metadata), metadata)
      ensures told == old(told) + if firstSeen == MAX_INT64 then Tell(m, attrType, attributes, now, now)
                                  else Tell(m, attrType, attributes, firstSeen, lastSeen)
      ensures NewRows(metadata, |old(metadata)|, m, attrType, attributes)
    {
      var first, last := firstSeen, lastSeen;
      if first == MAX_INT64 {
        first, last := now, now;
      }
      var i := 0;
      while i < |attributes|
        invariant 0 <= i <= |attributes| && Valid() && Grown(old(metadata), metadata)
        invariant told == old(told) + Tell(m, attrType, attributes[..i], first, last)
        invariant NewRows(metadata, |old(metadata)|, m, attrType, attributes[..i])
      {
        TellNext(m, attrType, attributes, i, first, last);
        AddAttribute(m, attrType, attributes[..i], attributes[i], first, last, old(metadata));
        assert attributes[..i + 1] == attributes[..i] + [attributes[i]];
        i := i + 1;
      }
      assert attributes[..i] == attributes;
    }

    /** One turn of the loop. */
    method AddAttribute(m: Metric, attrType: string, ghost done: seq<Attribute>, a: Attribute, first: int, last: int,
                        ghost before: seq<Metadata>)
      requires Valid() && Grown(before, metadata) && NewRows(metadata, |before|, m, attrType, done)
      modifies this
      ensures Valid() && Grown(before, metadata) && NewRows(metadata, |before|, m, attrType, done + [a])
      ensures told == old(told) + [Told(m, attrType, a, first, last)]
    {
      var mk := MetaKey(m.temporality, m.name, a.name, attrType, a.datatype_, a.value);
      var row := Metadata(mk, m.description, m.unit, m.typ, m.isMonotonic, first, last);
      ghost var was := metadata;
      EchoNext(told, history, Told(m, attrType, a, first, last), row);
      AddRow(row);
      told := told + [Told(m, attrType, a, first, last)];
      NewRowsNext(before, was, metadata, m, attrType, done, a, row);
    }

    method AddRow(row: Metadata)
      requires Indexed(history, metadata, metaIdx)
      modifies this`metadata, this`metaIdx, this`history
      ensures Indexed(history, metadata, metaIdx) && history == old(history) + [row]
      ensures GrownBy(old(metadata), metadata, row)
    {
      if row.key in metaIdx {
        WidenIndexed(history, metadata, metaIdx, row);
        WidenGrows(metadata, metaIdx[row.key], row);
        var idx := metaIdx[row.key];
        var existing := metadata[idx];
        if row.firstReported < existing.firstReported {
          existing := existing.(firstReported := row.firstReported);
        }
        if row.lastReported > existing.lastReported {
          existing := existing.(lastReported := row.lastReported);
        }
        metadata := metadata[idx := existing];
      } else {
        AppendIndexed(history, metadata, metaIdx, row);
        AppendGrows(metadata, row);
        metaIdx := metaIdx[row.key := |metadata|];
        metadata := metadata + [row];
      }
      history := history + [row];
    }
  }
}
