/**
 What sanitising makes of each place of a JSON tree (utils/utils.go:40-85). A place is the way to it from the
 root: which field or item to take at each level.
 */
module SanitizedPositions {
  import opened Options
  import opened SanitizeJson

  type Place = seq<nat>

  function Children(v: Json): seq<Json> {
    match v
    case Object(fields) => seq(|fields|, i requires 0 <= i < |fields| => fields[i].value)
    case Array(items) => items
    case _ => []
  }

  /** The value at a place. */
  function At(v: Json, place: Place): Option<Json>
    decreases |place|
  {
    if place == [] then Some(v)
    else if place[0] < |Children(v)| then At(Children(v)[place[0]], place[1..])
    else None
  }

  /** How many arrays are directly around a place, counting those around the root. */
  function ArraysAround(v: Json, place: Place, around: nat): nat
    decreases |place|
  {
    if place == [] || place[0] >= |Children(v)| then around
    else ArraysAround(Children(v)[place[0]], place[1..], if v.Array? then around + 1 else 0)
  }

  /** A container too far in. */
  predicate PastLimit(v: Json, depth: nat, arrays: nat) {
    || (v.Object? && depth >= 1000)
    || (v.Array? && (depth >= 1000 || arrays >= 128))
  }

  /** What a value that is not a container becomes. */
  predicate LeafBecomes(c: Codec, v: Json, w: Json) {
    match v
    case Float64(Finite(x)) =>
      if x >= 9223372036854775808.0 || x <= -9223372036854775808.0 then w == Number(c.format(x)) else w == v
    case Float64(_) => w == Null
    case Object(_) => false
    case Array(_) => false
    case _ => w == v
  }

  /** The same kind of container, with as many children under the same names. */
  predicate SameShape(v: Json, w: Json) {
    match v
    case Object(fields) =>
      && w.Object? && |w.fields| == |fields|
      && forall i :: 0 <= i < |fields| ==> w.fields[i].name == fields[i].name
    case Array(items) => w.Array? && |w.items| == |items|
    case _ => false
  }

  predicate Kept(c: Codec, v: Json, w: Json) {
    LeafBecomes(c, v, w) || SameShape(v, w)
  }

  /** w is v with every leaf cleaned and every container kept, at all places. */
  ghost predicate CleanCopy(c: Codec, v: Json, w: Json) {
    forall place: Place :: At(v, place).Some? ==>
      At(w, place).Some? && Kept(c, At(v, place).value, At(w, place).value)
  }

  ghost predicate TextOfCleanCopy(c: Codec, v: Json, w: Json) {
    exists copy :: CleanCopy(c, v, copy)
                   && w == Other(if c.marshal(copy).Some? then c.marshal(copy).value else "")
  }

  /** No container around the place is past a limit. */
  ghost predicate Reached(v: Json, place: Place, depth: nat, around: nat) {
    forall k :: 0 <= k < |place| ==>
      At(v, place[..k]).Some? && !PastLimit(At(v, place[..k]).value, depth + k, ArraysAround(v, place[..k], around))
  }

  // ---- one level ----

  lemma {:induction false} FieldsInPlace(c: Codec, fields: seq<Field>, depth: nat, limit: bool, i: nat)
    requires i < |fields|
    ensures var done := SanitizeFields(c, fields, depth, limit);
            && |done| == |fields| && done[i].name == fields[i].name
            && done[i].value == Sanitize(c, fields[i].value, depth, 0, limit)
  {
    var n := |fields| - 1;
    FieldsLength(c, fields[..n], depth, limit);
    if i < n {
      FieldsInPlace(c, fields[..n], depth, limit, i);
    }
  }

  lemma {:induction false} FieldsLength(c: Codec, fields: seq<Field>, depth: nat, limit: bool)
    ensures |SanitizeFields(c, fields, depth, limit)| == |fields|
  {
    if fields != [] {
      FieldsLength(c, fields[..|fields| - 1], depth, limit);
    }
  }

  lemma {:induction false} ItemsInPlace(c: Codec, items: seq<Json>, depth: nat, arrayDepth: nat, limit: bool, i: nat)
    requires i < |items|
    ensures var done := SanitizeItems(c, items, depth, arrayDepth, limit);
            |done| == |items| && done[i] == Sanitize(c, items[i], depth, arrayDepth, limit)
  {
    var n := |items| - 1;
    ItemsLength(c, items[..n], depth, arrayDepth, limit);
    if i < n {
      ItemsInPlace(c, items[..n], depth, arrayDepth, limit, i);
    }
  }

  lemma {:induction false} ItemsLength(c: Codec, items: seq<Json>, depth: nat, arrayDepth: nat, limit: bool)
    ensures |SanitizeItems(c, items, depth, arrayDepth, limit)| == |items|
  {
    if items != [] {
      ItemsLength(c, items[..|items| - 1], depth, arrayDepth, limit);
    }
  }

  /** A container within the limits keeps its shape, and its children are sanitised one level further in. */
  lemma OneLevel(c: Codec, v: Json, depth: nat, arrayDepth: nat, limit: bool, i: nat)
    requires (limit ==> !PastLimit(v, depth, arrayDepth)) && i < |Children(v)|
    ensures var w := Sanitize(c, v, depth, arrayDepth, limit);
            && |Children(w)| == |Children(v)|
            && Children(w)[i] == Sanitize(c, Children(v)[i], depth + 1, if v.Array? then arrayDepth + 1 else 0, limit)
  {
    match v
    case Object(fields) => FieldsInPlace(c, fields, depth + 1, limit, i);
    case Array(items) => ItemsInPlace(c, items, depth + 1, arrayDepth + 1, limit, i);
  }

  lemma RootKept(c: Codec, v: Json, depth: nat, arrayDepth: nat, limit: bool)
    requires limit ==> !PastLimit(v, depth, arrayDepth)
    ensures Kept(c, v, Sanitize(c, v, depth, arrayDepth, limit))
  {
    match v
    case Object(fields) =>
      FieldsLength(c, fields, depth + 1, limit);
      forall i | 0 <= i < |fields|
        ensures SanitizeFields(c, fields, depth + 1, limit)[i].name == fields[i].name
      {
        FieldsInPlace(c, fields, depth + 1, limit, i);
      }
    case Array(items) => ItemsLength(c, items, depth + 1, arrayDepth + 1, limit);
    case _ =>
  }

  // ---- without a limit ----

  lemma {:induction false} CopyAt(c: Codec, v: Json, depth: nat, arrayDepth: nat, place: Place)
    requires At(v, place).Some?
    ensures var w := Sanitize(c, v, depth, arrayDepth, false);
            At(w, place).Some? && Kept(c, At(v, place).value, At(w, place).value)
    decreases |place|
  {
    if place == [] {
      RootKept(c, v, depth, arrayDepth, false);
    } else {
      OneLevel(c, v, depth, arrayDepth, false, place[0]);
      CopyAt(c, Children(v)[place[0]], depth + 1, if v.Array? then arrayDepth + 1 else 0, place[1..]);
    }
  }

  lemma UnlimitedIsACleanCopy(c: Codec, v: Json)
    ensures CleanCopy(c, v, Sanitize(c, v, 0, 0, false))
  {
    forall place: Place | At(v, place).Some?
      ensures At(Sanitize(c, v, 0, 0, false), place).Some?
      ensures Kept(c, At(v, place).value, At(Sanitize(c, v, 0, 0, false), place).value)
    {
      CopyAt(c, v, 0, 0, place);
    }
  }

  lemma PastLimitBecomesText(c: Codec, v: Json, depth: nat, arrayDepth: nat)
    requires PastLimit(v, depth, arrayDepth)
    ensures TextOfCleanCopy(c, v, Sanitize(c, v, depth, arrayDepth, true))
  {
    UnlimitedIsACleanCopy(c, v);
    assert Sanitize(c, v, depth, arrayDepth, true) == Other(JsonText(c, v));
  }

  // ---- with the limits ----

  ghost predicate Becomes(c: Codec, v: Json, w: Json, depth: nat, arrays: nat) {
    if PastLimit(v, depth, arrays) then TextOfCleanCopy(c, v, w) else Kept(c, v, w)
  }

  lemma SanitizedRoot(c: Codec, v: Json, depth: nat, arrayDepth: nat)
    ensures Becomes(c, v, Sanitize(c, v, depth, arrayDepth, true), depth, arrayDepth)
  {
    if PastLimit(v, depth, arrayDepth) {
      PastLimitBecomesText(c, v, depth, arrayDepth);
    } else {
      RootKept(c, v, depth, arrayDepth, true);
    }
  }

  lemma ReachedBelow(v: Json, place: Place, depth: nat, around: nat)
    requires place != [] && place[0] < |Children(v)| && Reached(v, place, depth, around)
    ensures !PastLimit(v, depth, around)
    ensures Reached(Children(v)[place[0]], place[1..], depth + 1, if v.Array? then around + 1 else 0)
  {
    assert At(v, place[..0]) == Some(v) && ArraysAround(v, place[..0], around) == around;
    var inner, rest := Children(v)[place[0]], place[1..];
    forall k | 0 <= k < |rest|
      ensures At(inner, rest[..k]).Some?
      ensures !PastLimit(At(inner, rest[..k]).value, depth + 1 + k,
                         ArraysAround(inner, rest[..k], if v.Array? then around + 1 else 0))
    {
      assert place[..k + 1][1..] == rest[..k];
      assert At(v, place[..k + 1]).Some?;
    }
  }

  lemma OneStepIn(v: Json, place: Place, around: nat)
    requires place != [] && place[0] < |Children(v)|
    ensures At(v, place) == At(Children(v)[place[0]], place[1..])
    ensures ArraysAround(v, place, around)
            == ArraysAround(Children(v)[place[0]], place[1..], if v.Array? then around + 1 else 0)
  {
  }

  lemma {:induction false} BecomesAt(c: Codec, v: Json, w: Json, depth: nat, arrayDepth: nat, place: Place)
    requires At(v, place).Some? && Reached(v, place, depth, arrayDepth)
    requires w == Sanitize(c, v, depth, arrayDepth, true)
    ensures At(w, place).Some?
    ensures Becomes(c, At(v, place).value, At(w, place).value, depth + |place|, ArraysAround(v, place, arrayDepth))
    decreases |place|
  {
    if place == [] {
      SanitizedRoot(c, v, depth, arrayDepth);
    } else {
      var i, rest := place[0], place[1..];
      ReachedBelow(v, place, depth, arrayDepth);
      OneLevel(c, v, depth, arrayDepth, true, i);
      BecomesAt(c, Children(v)[i], Children(w)[i], depth + 1, if v.Array? then arrayDepth + 1 else 0, rest);
      OneStepIn(v, place, arrayDepth);
      OneStepIn(w, place, arrayDepth);
      assert depth + 1 + |rest| == depth + |place|;
    }
  }

  /** At every place that no container past a limit encloses: NaN and infinities become null, a finite float outside
      the Int64 range becomes its exponent form, other leaves stay, a container within the limits keeps its kind,
      length and names, and one past a limit becomes the text of its own cleaned tree. */
  lemma SanitizedByPosition(c: Codec, v: Json, place: Place)
    requires At(v, place).Some? && Reached(v, place, 0, 0)
    ensures At(SanitizeJSON(c, v), place).Some?
    ensures Becomes(c, At(v, place).value, At(SanitizeJSON(c, v), place).value, |place|, ArraysAround(v, place, 0))
  {
    BecomesAt(c, v, SanitizeJSON(c, v), 0, 0, place);
  }

  // ---- the places determine the tree ----

  lemma PlaceBelow(v: Json, i: nat, place: Place)
    requires i < |Children(v)|
    ensures At(v, [i] + place) == At(Children(v)[i], place)
  {
    assert ([i] + place)[1..] == place;
  }

  lemma CopyBelow(c: Codec, v: Json, w: Json, i: nat)
    requires CleanCopy(c, v, w) && i < |Children(v)| == |Children(w)|
    ensures CleanCopy(c, Children(v)[i], Children(w)[i])
  {
    forall place: Place | At(Children(v)[i], place).Some?
      ensures At(Children(w)[i], place).Some?
      ensures Kept(c, At(Children(v)[i], place).value, At(Children(w)[i], place).value)
    {
      PlaceBelow(v, i, place);
      PlaceBelow(w, i, place);
      assert At(v, [i] + place).Some?;
    }
  }

  /** A container is its shape and its children. */
  lemma SameChildren(v: Json, a: Json, b: Json)
    requires SameShape(v, a) && SameShape(v, b)
    requires forall i :: 0 <= i < |Children(v)| ==> Children(a)[i] == Children(b)[i]
    ensures a == b
  {
    match v
    case Object(fields) =>
      forall i | 0 <= i < |fields| ensures a.fields[i] == b.fields[i] {
        assert Children(a)[i] == Children(b)[i];
      }
      assert a.fields == b.fields;
    case Array(items) =>
      assert Children(v) == items && Children(a) == a.items && Children(b) == b.items;
      assert a.items == b.items;
  }

  lemma {:induction false} OnlyOneCleanCopy(c: Codec, v: Json, w: Json, depth: nat, arrayDepth: nat)
    requires CleanCopy(c, v, w)
    ensures w == Sanitize(c, v, depth, arrayDepth, false)
    decreases v
  {
    var s := Sanitize(c, v, depth, arrayDepth, false);
    assert At(v, []) == Some(v) && At(w, []) == Some(w);
    assert Kept(c, v, w);
    RootKept(c, v, depth, arrayDepth, false);
    if v.Object? || v.Array? {
      forall i: nat | i < |Children(v)| ensures Children(w)[i] == Children(s)[i] {
        CopyBelow(c, v, w, i);
        OneLevel(c, v, depth, arrayDepth, false, i);
        OnlyOneCleanCopy(c, Children(v)[i], Children(w)[i], depth + 1, if v.Array? then arrayDepth + 1 else 0);
      }
      SameChildren(v, w, s);
    }
  }

  /** At each place that no container past a limit encloses, w is what that place becomes. */
  ghost predicate ByPosition(c: Codec, v: Json, w: Json, depth: nat, around: nat) {
    forall place: Place :: At(v, place).Some? && Reached(v, place, depth, around) ==>
      && At(w, place).Some?
      && Becomes(c, At(v, place).value, At(w, place).value, depth + |place|, ArraysAround(v, place, around))
  }

  lemma ReachedFromAbove(v: Json, i: nat, place: Place, depth: nat, around: nat)
    requires i < |Children(v)| && !PastLimit(v, depth, around)
    requires Reached(Children(v)[i], place, depth + 1, if v.Array? then around + 1 else 0)
    ensures Reached(v, [i] + place, depth, around)
  {
    var inner := if v.Array? then around + 1 else 0;
    forall k | 0 <= k < |[i] + place|
      ensures At(v, ([i] + place)[..k]).Some?
      ensures !PastLimit(At(v, ([i] + place)[..k]).value, depth + k, ArraysAround(v, ([i] + place)[..k], around))
    {
      if k > 0 {
        assert ([i] + place)[..k] == [i] + place[..k - 1] && ([i] + place[..k - 1])[1..] == place[..k - 1];
        assert At(Children(v)[i], place[..k - 1]).Some?;
      }
    }
  }

  lemma ByPositionBelow(c: Codec, v: Json, w: Json, depth: nat, around: nat, i: nat)
    requires ByPosition(c, v, w, depth, around) && !PastLimit(v, depth, around) && i < |Children(v)| == |Children(w)|
    ensures ByPosition(c, Children(v)[i], Children(w)[i], depth + 1, if v.Array? then around + 1 else 0)
  {
    var inner := if v.Array? then around + 1 else 0;
    forall place: Place | At(Children(v)[i], place).Some? && Reached(Children(v)[i], place, depth + 1, inner)
      ensures At(Children(w)[i], place).Some?
      ensures Becomes(c, At(Children(v)[i], place).value, At(Children(w)[i], place).value, depth + 1 + |place|,
                      ArraysAround(Children(v)[i], place, inner))
    {
      PlaceBelow(v, i, place);
      PlaceBelow(w, i, place);
      ReachedFromAbove(v, i, place, depth, around);
      assert ([i] + place)[1..] == place;
      assert ArraysAround(v, [i] + place, around) == ArraysAround(Children(v)[i], place, inner);
      assert At(v, [i] + place).Some?;
    }
  }

  lemma RootBecomes(c: Codec, v: Json, w: Json, depth: nat, around: nat)
    requires ByPosition(c, v, w, depth, around)
    ensures Becomes(c, v, w, depth, around)
  {
    var root: Place := [];
    assert At(v, root) == Some(v) && At(w, root) == Some(w) && Reached(v, root, depth, around);
    assert Becomes(c, At(v, root).value, At(w, root).value, depth + |root|, ArraysAround(v, root, around));
  }

  lemma OnlyOneText(c: Codec, v: Json, w: Json, depth: nat, arrayDepth: nat)
    requires PastLimit(v, depth, arrayDepth) && TextOfCleanCopy(c, v, w)
    ensures w == Sanitize(c, v, depth, arrayDepth, true)
  {
    var copy :| CleanCopy(c, v, copy) && w == Other(if c.marshal(copy).Some? then c.marshal(copy).value else "");
    OnlyOneCleanCopy(c, v, copy, 0, 0);
  }

  lemma {:induction false} OnlyOneByPosition(c: Codec, v: Json, w: Json, depth: nat, arrayDepth: nat)
    requires ByPosition(c, v, w, depth, arrayDepth)
    ensures w == Sanitize(c, v, depth, arrayDepth, true)
    decreases v
  {
    RootBecomes(c, v, w, depth, arrayDepth);
    if PastLimit(v, depth, arrayDepth) {
      OnlyOneText(c, v, w, depth, arrayDepth);
    } else {
      var s := Sanitize(c, v, depth, arrayDepth, true);
      RootKept(c, v, depth, arrayDepth, true);
      if v.Object? || v.Array? {
        forall i: nat | i < |Children(v)| ensures Children(w)[i] == Children(s)[i] {
          ByPositionBelow(c, v, w, depth, arrayDepth, i);
          OneLevel(c, v, depth, arrayDepth, true, i);
          OnlyOneByPosition(c, Children(v)[i], Children(w)[i], depth + 1, if v.Array? then arrayDepth + 1 else 0);
        }
        SameChildren(v, w, s);
      }
    }
  }

  /** Sanitising yields the one tree whose places are as they should be. */
  lemma SanitizedExactly(c: Codec, v: Json, w: Json)
    ensures w == SanitizeJSON(c, v) <==> ByPosition(c, v, w, 0, 0)
  {
    if ByPosition(c, v, w, 0, 0) {
      OnlyOneByPosition(c, v, w, 0, 0);
    }
    if w == SanitizeJSON(c, v) {
      forall place: Place | At(v, place).Some? && Reached(v, place, 0, 0)
        ensures At(w, place).Some?
        ensures Becomes(c, At(v, place).value, At(w, place).value, 0 + |place|, ArraysAround(v, place, 0))
      {
        SanitizedByPosition(c, v, place);
      }
    }
  }
}
