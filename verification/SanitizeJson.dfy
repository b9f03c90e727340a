/**
 Depth-bounded sanitising of JSON (utils/utils.go:28-93). A finite float64 is a real; formatting a float and
 marshalling a tree are arbitrary functions, and marshalling may fail. The fields of an object are kept in
 some order that is never looked at.
 */
module SanitizeJson {
  import opened Options

  const MAX_DEPTH: nat := 1000
  const MAX_ARRAY_DEPTH: nat := 128
  const TWO63: real := 9223372036854775808.0

  datatype Float = NaN | PosInf | NegInf | Finite(value: real)

  datatype Json =
    | Null
    | Other(text: string)   // strings, booleans, integers: left alone
    | Number(text: string)  // a number already in its final spelling
    | Float64(float: Float)
    | Object(fields: seq<Field>)
    | Array(items: seq<Json>)

  datatype Field = Field(name: string, value: Json)

  datatype Codec = Codec(format: real -> string, marshal: Json -> Option<string>)

  predicate InRange(x: real) {
    -TWO63 < x < TWO63
  }

  function SanitizeFloat(c: Codec, f: Float): Json {
    if !f.Finite? then Null
    else if !InRange(f.value) then Number(c.format(f.value))
    else Float64(f)
  }

  /** limit says whether deep containers become text; their own text is made without a limit. */
  function Sanitize(c: Codec, v: Json, depth: nat, arrayDepth: nat, limit: bool): Json
    decreases limit, v
  {
    match v
    case Float64(f) => SanitizeFloat(c, f)
    case Object(fields) =>
      if limit && depth >= MAX_DEPTH then Other(JsonText(c, v))
      else Object(SanitizeFields(c, fields, depth + 1, limit))
    case Array(items) =>
      if limit && (depth >= MAX_DEPTH || arrayDepth >= MAX_ARRAY_DEPTH) then Other(JsonText(c, v))
      else Array(SanitizeItems(c, items, depth + 1, arrayDepth + 1, limit))
    case _ => v
  }

  function SanitizeFields(c: Codec, fields: seq<Field>, depth: nat, limit: bool): seq<Field>
    decreases limit, fields
  {
    if fields == [] then []
    else
      var n := |fields| - 1;
      SanitizeFields(c, fields[..n], depth, limit)
        + [Field(fields[n].name, Sanitize(c, fields[n].value, depth, 0, limit))]
  }

  function SanitizeItems(c: Codec, items: seq<Json>, depth: nat, arrayDepth: nat, limit: bool): seq<Json>
    decreases limit, items
  {
    if items == [] then []
    else
      var n := |items| - 1;
      SanitizeItems(c, items[..n], depth, arrayDepth, limit) + [Sanitize(c, items[n], depth, arrayDepth, limit)]
  }

  function JsonText(c: Codec, v: Json): string
    decreases true, v, 0
  {
    var text := c.marshal(Sanitize(c, v, 0, 0, false));
    if text.None? then "" else text.value
  }

  function SanitizeJSON(c: Codec, v: Json): Json {
    Sanitize(c, v, 0, 0, true)
  }

  // ---- what ClickHouse accepts ----

  /** No NaN or infinity, and no float that would print as an integer outside Int64. */
  predicate Clean(v: Json) {
    match v
    case Float64(f) => f.Finite? && InRange(f.value)
    case Object(fields) => CleanFields(fields)
    case Array(items) => CleanItems(items)
    case _ => true
  }

  predicate CleanFields(fields: seq<Field>) {
    fields == [] || (CleanFields(fields[..|fields| - 1]) && Clean(fields[|fields| - 1].value))
  }

  predicate CleanItems(items: seq<Json>) {
    items == [] || (CleanItems(items[..|items| - 1]) && Clean(items[|items| - 1]))
  }

  function Max(a: nat, b: nat): nat {
    if a < b then b else a
  }

  /** Container levels. */
  function Depth(v: Json): nat {
    match v
    case Object(fields) => 1 + FieldsDepth(fields)
    case Array(items) => 1 + ItemsDepth(items)
    case _ => 0
  }

  function FieldsDepth(fields: seq<Field>): nat {
    if fields == [] then 0 else Max(FieldsDepth(fields[..|fields| - 1]), Depth(fields[|fields| - 1].value))
  }

  function ItemsDepth(items: seq<Json>): nat {
    if items == [] then 0 else Max(ItemsDepth(items[..|items| - 1]), Depth(items[|items| - 1]))
  }

  /** The longest chain of arrays directly inside arrays that starts at v. */
  function Chain(v: Json): nat {
    if v.Array? then 1 + ItemsChain(v.items) else 0
  }

  function ItemsChain(items: seq<Json>): nat {
    if items == [] then 0 else Max(ItemsChain(items[..|items| - 1]), Chain(items[|items| - 1]))
  }

  /** The longest such chain that starts anywhere in v. */
  function LongestChain(v: Json): nat {
    match v
    case Object(fields) => FieldsLongest(fields)
    case Array(items) => Max(Chain(v), ItemsLongest(items))
    case _ => 0
  }

  function FieldsLongest(fields: seq<Field>): nat {
    if fields == [] then 0 else Max(FieldsLongest(fields[..|fields| - 1]), LongestChain(fields[|fields| - 1].value))
  }

  function ItemsLongest(items: seq<Json>): nat {
    if items == [] then 0 else Max(ItemsLongest(items[..|items| - 1]), LongestChain(items[|items| - 1]))
  }

  /** v may stand at this depth and this far into a chain of arrays. */
  predicate Shallow(v: Json, depth: nat, arrayDepth: nat) {
    && (Depth(v) == 0 || depth + Depth(v) <= MAX_DEPTH)
    && (Chain(v) == 0 || arrayDepth + Chain(v) <= MAX_ARRAY_DEPTH)
    && LongestChain(v) <= MAX_ARRAY_DEPTH
  }

  predicate ShallowItems(items: seq<Json>, depth: nat, arrayDepth: nat) {
    && (ItemsDepth(items) == 0 || depth + ItemsDepth(items) <= MAX_DEPTH)
    && (ItemsChain(items) == 0 || arrayDepth + ItemsChain(items) <= MAX_ARRAY_DEPTH)
    && ItemsLongest(items) <= MAX_ARRAY_DEPTH
  }

  predicate ShallowFields(fields: seq<Field>, depth: nat) {
    && (FieldsDepth(fields) == 0 || depth + FieldsDepth(fields) <= MAX_DEPTH)
    && FieldsLongest(fields) <= MAX_ARRAY_DEPTH
  }

  // ---- the result is clean ----

  lemma {:induction false} SanitizedIsClean(c: Codec, v: Json, depth: nat, arrayDepth: nat, limit: bool)
    ensures Clean(Sanitize(c, v, depth, arrayDepth, limit))
    decreases v
  {
    match v
    case Object(fields) => FieldsAreClean(c, fields, depth + 1, limit);
    case Array(items) => ItemsAreClean(c, items, depth + 1, arrayDepth + 1, limit);
    case _ =>
  }

  lemma {:induction false} FieldsAreClean(c: Codec, fields: seq<Field>, depth: nat, limit: bool)
    ensures CleanFields(SanitizeFields(c, fields, depth, limit))
    decreases fields
  {
    if fields != [] {
      var n := |fields| - 1;
      FieldsAreClean(c, fields[..n], depth, limit);
      SanitizedIsClean(c, fields[n].value, depth, 0, limit);
      FieldsSnoc(SanitizeFields(c, fields[..n], depth, limit),
                 Field(fields[n].name, Sanitize(c, fields[n].value, depth, 0, limit)));
    }
  }

  lemma FieldsSnoc(fields: seq<Field>, f: Field)
    ensures CleanFields(fields + [f]) <==> CleanFields(fields) && Clean(f.value)
    ensures FieldsDepth(fields + [f]) == Max(FieldsDepth(fields), Depth(f.value))
    ensures FieldsLongest(fields + [f]) == Max(FieldsLongest(fields), LongestChain(f.value))
  {
    assert (fields + [f])[..|fields|] == fields;
  }

  lemma {:induction false} ItemsAreClean(c: Codec, items: seq<Json>, depth: nat, arrayDepth: nat, limit: bool)
    ensures CleanItems(SanitizeItems(c, items, depth, arrayDepth, limit))
    decreases items
  {
    if items != [] {
      var n := |items| - 1;
      ItemsAreClean(c, items[..n], depth, arrayDepth, limit);
      SanitizedIsClean(c, items[n], depth, arrayDepth, limit);
      ItemsSnoc(SanitizeItems(c, items[..n], depth, arrayDepth, limit),
                Sanitize(c, items[n], depth, arrayDepth, limit));
    }
  }

  lemma ItemsSnoc(items: seq<Json>, v: Json)
    ensures CleanItems(items + [v]) <==> CleanItems(items) && Clean(v)
    ensures ItemsDepth(items + [v]) == Max(ItemsDepth(items), Depth(v))
    ensures ItemsChain(items + [v]) == Max(ItemsChain(items), Chain(v))
    ensures ItemsLongest(items + [v]) == Max(ItemsLongest(items), LongestChain(v))
  {
    assert (items + [v])[..|items|] == items;
  }

  // ---- the result is shallow ----

  lemma {:induction false} SanitizedIsShallow(c: Codec, v: Json, depth: nat, arrayDepth: nat)
    ensures Shallow(Sanitize(c, v, depth, arrayDepth, true), depth, arrayDepth)
    decreases v
  {
    match v
    case Object(fields) =>
      if depth < MAX_DEPTH {
        FieldsAreShallow(c, fields, depth + 1);
      }
    case Array(items) =>
      if depth < MAX_DEPTH && arrayDepth < MAX_ARRAY_DEPTH {
        ItemsAreShallow(c, items, depth + 1, arrayDepth + 1);
      }
    case _ =>
  }

  lemma {:induction false} FieldsAreShallow(c: Codec, fields: seq<Field>, depth: nat)
    ensures ShallowFields(SanitizeFields(c, fields, depth, true), depth)
    decreases fields
  {
    if fields != [] {
      var n := |fields| - 1;
      FieldsAreShallow(c, fields[..n], depth);
      SanitizedIsShallow(c, fields[n].value, depth, 0);
      FieldsSnoc(SanitizeFields(c, fields[..n], depth, true),
                 Field(fields[n].name, Sanitize(c, fields[n].value, depth, 0, true)));
    }
  }

  lemma {:induction false} ItemsAreShallow(c: Codec, items: seq<Json>, depth: nat, arrayDepth: nat)
    ensures ShallowItems(SanitizeItems(c, items, depth, arrayDepth, true), depth, arrayDepth)
    decreases items
  {
    if items != [] {
      var n := |items| - 1;
      ItemsAreShallow(c, items[..n], depth, arrayDepth);
      SanitizedIsShallow(c, items[n], depth, arrayDepth);
      ItemsSnoc(SanitizeItems(c, items[..n], depth, arrayDepth, true), Sanitize(c, items[n], depth, arrayDepth, true));
    }
  }

  // ---- what is fine is left alone ----

  lemma {:induction false} FineIsUnchanged(c: Codec, v: Json, depth: nat, arrayDepth: nat, limit: bool)
    requires Clean(v) && (limit ==> Shallow(v, depth, arrayDepth))
    ensures Sanitize(c, v, depth, arrayDepth, limit) == v
    decreases v
  {
    match v
    case Object(fields) => FineFields(c, fields, depth + 1, limit);
    case Array(items) => FineItems(c, items, depth + 1, arrayDepth + 1, limit);
    case _ =>
  }

  lemma {:induction false} FineFields(c: Codec, fields: seq<Field>, depth: nat, limit: bool)
    requires CleanFields(fields) && (limit ==> ShallowFields(fields, depth))
    ensures SanitizeFields(c, fields, depth, limit) == fields
    decreases fields
  {
    if fields != [] {
      var n := |fields| - 1;
      FineFields(c, fields[..n], depth, limit);
      if limit {
        ChainWithinLongest(fields[n].value);
      }
      FineIsUnchanged(c, fields[n].value, depth, 0, limit);
      assert fields == fields[..n] + [fields[n]];
    }
  }

  lemma {:induction false} FineItems(c: Codec, items: seq<Json>, depth: nat, arrayDepth: nat, limit: bool)
    requires CleanItems(items) && (limit ==> ShallowItems(items, depth, arrayDepth))
    ensures SanitizeItems(c, items, depth, arrayDepth, limit) == items
    decreases items
  {
    if items != [] {
      var n := |items| - 1;
      FineItems(c, items[..n], depth, arrayDepth, limit);
      FineIsUnchanged(c, items[n], depth, arrayDepth, limit);
      assert items == items[..n] + [items[n]];
    }
  }

  lemma ChainWithinLongest(v: Json)
    ensures Chain(v) <= LongestChain(v)
  {
  }

  // ---- main results ----

  /** What JSON text ClickHouse takes: no value it cannot store, and no nesting past the limits. */
  predicate Acceptable(v: Json) {
    Clean(v) && Depth(v) <= MAX_DEPTH && LongestChain(v) <= MAX_ARRAY_DEPTH
  }

  lemma SanitizedIsAcceptable(c: Codec, v: Json)
    ensures Acceptable(SanitizeJSON(c, v))
  {
    SanitizedIsClean(c, v, 0, 0, true);
    SanitizedIsShallow(c, v, 0, 0);
  }

  /** Exactly the acceptable trees are left as they are. */
  lemma UnchangedIffAcceptable(c: Codec, v: Json)
    ensures SanitizeJSON(c, v) == v <==> Acceptable(v)
  {
    SanitizedIsAcceptable(c, v);
    if Acceptable(v) {
      ChainWithinLongest(v);
      FineIsUnchanged(c, v, 0, 0, true);
    }
  }

  lemma SanitizingIsIdempotent(c: Codec, v: Json)
    ensures SanitizeJSON(c, SanitizeJSON(c, v)) == SanitizeJSON(c, v)
  {
    SanitizedIsAcceptable(c, v);
    UnchangedIffAcceptable(c, SanitizeJSON(c, v));
  }

  // ---- the rewriting loops ----

  /** Writing one more element lengthens the part that is done and shortens the part that is not. */
  lemma Placed<T>(val: seq<T>, i: nat, x: T, all: seq<T>)
    requires i < |val| == |all| && val[i..] == all[i..]
    ensures val[i := x][..i + 1] == val[..i] + [x] && val[i := x][i + 1..] == all[i + 1..]
  {
    assert val[i + 1..] == val[i..][1..] && all[i + 1..] == all[i..][1..];
  }

  lemma FieldsNext(c: Codec, fields: seq<Field>, i: nat, depth: nat, limit: bool)
    requires i < |fields|
    ensures SanitizeFields(c, fields[..i + 1], depth, limit)
            == SanitizeFields(c, fields[..i], depth, limit)
               + [Field(fields[i].name, Sanitize(c, fields[i].value, depth, 0, limit))]
  {
    assert fields[..i + 1][..i] == fields[..i];
  }

  lemma ItemsNext(c: Codec, items: seq<Json>, i: nat, depth: nat, arrayDepth: nat, limit: bool)
    requires i < |items|
    ensures SanitizeItems(c, items[..i + 1], depth, arrayDepth, limit)
            == SanitizeItems(c, items[..i], depth, arrayDepth, limit)
               + [Sanitize(c, items[i], depth, arrayDepth, limit)]
  {
    assert items[..i + 1][..i] == items[..i];
  }

  /** The fields of an object are replaced one by one where they stand. */
  method RewriteFields(c: Codec, fields: seq<Field>, depth: nat, limit: bool) returns (val: seq<Field>)
    ensures val == SanitizeFields(c, fields, depth, limit)
    decreases limit, fields
  {
    val := fields;
    var i := 0;
    while i < |fields|
      invariant 0 <= i <= |fields| == |val| && val[i..] == fields[i..]
      invariant val[..i] == SanitizeFields(c, fields[..i], depth, limit)
    {
      var field := fields[i];
      var vv := Rewrite(c, field.value, depth, 0, limit);
      FieldsNext(c, fields, i, depth, limit);
      Placed(val, i, Field(field.name, vv), fields);
      val := val[i := Field(field.name, vv)];
      i := i + 1;
    }
    assert fields[..i] == fields && val[..i] == val;
  }

  /** So are the items of an array. */
  method RewriteItems(c: Codec, items: seq<Json>, depth: nat, arrayDepth: nat, limit: bool) returns (val: seq<Json>)
    ensures val == SanitizeItems(c, items, depth, arrayDepth, limit)
    decreases limit, items
  {
    val := items;
    var i := 0;
    while i < |items|
      invariant 0 <= i <= |items| == |val| && val[i..] == items[i..]
      invariant val[..i] == SanitizeItems(c, items[..i], depth, arrayDepth, limit)
    {
      var vv := Rewrite(c, items[i], depth, arrayDepth, limit);
      ItemsNext(c, items, i, depth, arrayDepth, limit);
      Placed(val, i, vv, items);
      val := val[i := vv];
      i := i + 1;
    }
    assert items[..i] == items && val[..i] == val;
  }

  method Rewrite(c: Codec, v: Json, depth: nat, arrayDepth: nat, limit: bool) returns (r: Json)
    ensures r == Sanitize(c, v, depth, arrayDepth, limit)
    decreases limit, v
  {
    match v
    case Float64(f) =>
      r := SanitizeFloat(c, f);
    case Object(fields) =>
      if limit && depth >= MAX_DEPTH {
        var text := Text(c, v);
        return Other(text);
      }
      var val := RewriteFields(c, fields, depth + 1, limit);
      r := Object(val);
    case Array(items) =>
      if limit && (depth >= MAX_DEPTH || arrayDepth >= MAX_ARRAY_DEPTH) {
        var text := Text(c, v);
        return Other(text);
      }
      var val := RewriteItems(c, items, depth + 1, arrayDepth + 1, limit);
      r := Array(val);
    case _ =>
      r := v;
  }

  method Text(c: Codec, v: Json) returns (text: string)
    ensures text == JsonText(c, v)
    decreases true, v, 0
  {
    var r := Rewrite(c, v, 0, 0, false);
    var b := c.marshal(r);
    text := if b.None? then "" else b.value;
  }
}
