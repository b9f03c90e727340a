/**
 Which keys a dimension cache holds live (processor/signozspanmetricsprocessor/internal/cache/cache.go:29-90): those
 used last, as many as it has room for. Looking a key up counts as a use if the key is known.
 */
module DimensionRecency {
  import opened DimensionCache
  import opened Options

  datatype Op = Recall(key: Key, dims: Dims) | Look(key: Key) | Clear

  function Step(c: Cache, op: Op): Cache {
    match op
    case Recall(k, dims) => Remember(c, k, dims)
    case Look(k) => Get(c, k)
    case Clear => RemoveEvictedItems(c)
  }

  function After(size: Size, ops: seq<Op>): Cache {
    if ops == [] then NewCache(size) else Step(After(size, ops[..|ops| - 1]), ops[|ops| - 1])
  }

  predicate Uses(c: Cache, op: Op, k: Key) {
    match op
    case Recall(key, _) => key == k
    case Look(key) => key == k && Find(c, k).Some?
    case Clear => false
  }

  /** One past the last operation that used the key; zero if none did. */
  function LastUse(size: Size, ops: seq<Op>, k: Key): nat {
    if ops == [] then 0
    else
      var n := |ops| - 1;
      if Uses(After(size, ops[..n]), ops[n], k) then n + 1 else LastUse(size, ops[..n], k)
  }

  lemma {:induction false} LastUseBound(size: Size, ops: seq<Op>, k: Key)
    ensures LastUse(size, ops, k) <= |ops|
  {
    if ops != [] {
      LastUseBound(size, ops[..|ops| - 1], k);
    }
  }

  /** x was used before all of the keys. */
  ghost predicate Older(times: Key -> nat, x: Key, keys: seq<Key>) {
    forall y :: y in keys ==> times(x) < times(y)
  }

  ghost predicate Newer(times: Key -> nat, x: Key, keys: seq<Key>) {
    times(x) > 0 && forall y :: y in keys ==> times(y) < times(x)
  }

  /** The keys are in the order of their times, and all have been used. */
  ghost predicate InOrder(times: Key -> nat, keys: seq<Key>) {
    keys != [] ==> InOrder(times, keys[..|keys| - 1]) && Newer(times, keys[|keys| - 1], keys[..|keys| - 1])
  }

  /** Whatever was used and is not live was used before all that is, and is missing only because the cache is full. */
  ghost predicate RestIsOlder(times: Key -> nat, c: Cache) {
    forall k :: times(k) > 0 && k !in c.live ==> |c.recency| == c.size && Older(times, k, c.recency)
  }

  ghost predicate Recent(times: Key -> nat, c: Cache) {
    CacheOk(c) && InOrder(times, c.recency) && RestIsOlder(times, c)
  }

  /** k is used now, at a time after all others. */
  ghost predicate UsedNow(before: Key -> nat, after: Key -> nat, k: Key, now: nat) {
    now > 0 && (forall x :: before(x) < now) && forall x :: after(x) == if x == k then now else before(x)
  }

  lemma InOrderNext(times: Key -> nat, keys: seq<Key>, k: Key)
    requires InOrder(times, keys) && Newer(times, k, keys)
    ensures InOrder(times, keys + [k])
  {
    assert (keys + [k])[..|keys|] == keys;
  }

  lemma {:induction false} AllUsed(times: Key -> nat, keys: seq<Key>, k: Key)
    requires InOrder(times, keys) && k in keys
    ensures times(k) > 0
  {
    var n := |keys| - 1;
    if k != keys[n] {
      AllUsed(times, keys[..n], k);
    }
  }

  lemma {:induction false} WithoutInOrder(times: Key -> nat, keys: seq<Key>, k: Key)
    requires InOrder(times, keys) && Distinct(keys)
    ensures InOrder(times, Without(keys, k))
  {
    if keys != [] {
      var n := |keys| - 1;
      var front, last := keys[..n], keys[n];
      WithoutInOrder(times, front, k);
      WithoutKey(front, k);
      InOrderNext(times, Without(front, k), last);
    }
  }

  /** The first key was used before the others. */
  lemma {:induction false} TailInOrder(times: Key -> nat, keys: seq<Key>)
    requires InOrder(times, keys) && keys != []
    ensures InOrder(times, keys[1..]) && Older(times, keys[0], keys[1..])
  {
    if |keys| > 1 {
      var n := |keys| - 1;
      TailInOrder(times, keys[..n]);
      assert keys[..n][1..] == keys[1..n] && keys[1..] == keys[1..n] + [keys[n]] && keys[..n][0] == keys[0];
      assert forall x :: x in keys[1..n] ==> x in keys[..n];
      InOrderNext(times, keys[1..n], keys[n]);
      assert keys[0] in keys[..n];
    }
  }

  lemma {:induction false} SameOrder(before: Key -> nat, after: Key -> nat, keys: seq<Key>)
    requires InOrder(before, keys) && forall x :: x in keys ==> after(x) == before(x)
    ensures InOrder(after, keys)
  {
    if keys != [] {
      SameOrder(before, after, keys[..|keys| - 1]);
      assert keys[|keys| - 1] in keys;
    }
  }

  lemma MovedToTheEnd(before: Key -> nat, after: Key -> nat, keys: seq<Key>, k: Key, now: nat)
    requires InOrder(before, keys) && k !in keys && UsedNow(before, after, k, now)
    ensures InOrder(after, keys + [k])
  {
    SameOrder(before, after, keys);
    InOrderNext(after, keys, k);
  }

  /** A key that was used before, is not used now, and is older than the keys is older than them and the one used. */
  lemma StaysOlder(before: Key -> nat, after: Key -> nat, keys: seq<Key>, k: Key, now: nat, x: Key)
    requires UsedNow(before, after, k, now) && x != k && k !in keys && Older(before, x, keys)
    ensures Older(after, x, keys + [k])
  {
    forall y | y in keys + [k] ensures after(x) < after(y) {
      assert y in keys || y == k;
    }
  }

  lemma RestStaysOlder(before: Key -> nat, after: Key -> nat, d: Cache, rest: seq<Key>, k: Key, now: nat)
    requires UsedNow(before, after, k, now) && k !in rest && d.recency == rest + [k] && k in d.live
    requires forall x :: before(x) > 0 && x != k && x !in d.live ==> |d.recency| == d.size && Older(before, x, rest)
    ensures RestIsOlder(after, d)
  {
    forall x | after(x) > 0 && x !in d.live ensures |d.recency| == d.size && Older(after, x, d.recency) {
      StaysOlder(before, after, rest, k, now, x);
    }
  }

  lemma MovedOk(c: Cache, d: Cache, k: Key)
    requires CacheOk(c) && k in c.live && d.live.Keys == c.live.Keys && d.size == c.size
    requires d.recency == Without(c.recency, k) + [k]
    ensures CacheOk(d) && |d.recency| == |c.recency|
  {
    WithoutKey(c.recency, k);
    forall x ensures x in d.recency <==> x in d.live {
      assert x in c.recency <==> x in c.live;
    }
  }

  lemma TouchLive(before: Key -> nat, after: Key -> nat, c: Cache, d: Cache, k: Key, now: nat)
    requires Recent(before, c) && UsedNow(before, after, k, now) && k in c.live
    requires d.recency == Without(c.recency, k) + [k] && d.live.Keys == c.live.Keys && d.size == c.size
    ensures Recent(after, d)
  {
    var rest := Without(c.recency, k);
    WithoutKey(c.recency, k);
    WithoutInOrder(before, c.recency, k);
    MovedToTheEnd(before, after, rest, k, now);
    MovedOk(c, d, k);
    forall x | before(x) > 0 && x != k && x !in d.live ensures |d.recency| == d.size && Older(before, x, rest) {
      assert Older(before, x, c.recency);
    }
    RestStaysOlder(before, after, d, rest, k, now);
  }

  lemma TouchNew(before: Key -> nat, after: Key -> nat, c: Cache, k: Key, dims: Dims, now: nat)
    requires Recent(before, c) && UsedNow(before, after, k, now) && k !in c.live && |c.recency| < c.size
    ensures Recent(after, Add(c, k, dims))
  {
    AddFinds(c, k, dims);
    assert k !in c.recency;
    MovedToTheEnd(before, after, c.recency, k, now);
  }

  lemma TouchFull(before: Key -> nat, after: Key -> nat, c: Cache, k: Key, dims: Dims, now: nat)
    requires Recent(before, c) && UsedNow(before, after, k, now) && k !in c.live && |c.recency| == c.size
    ensures Recent(after, Add(c, k, dims))
  {
    var d, rest := Add(c, k, dims), c.recency[1..];
    AddFinds(c, k, dims);
    TailInOrder(before, c.recency);
    assert k !in c.recency && k !in rest;
    MovedToTheEnd(before, after, rest, k, now);
    forall x | before(x) > 0 && x != k && x !in d.live ensures Older(before, x, rest) {
      VictimIsOldest(before, c, x);
    }
    RestStaysOlder(before, after, d, rest, k, now);
  }

  lemma VictimIsOldest(times: Key -> nat, c: Cache, x: Key)
    requires Recent(times, c) && c.recency != [] && times(x) > 0 && (x !in c.live || x == c.recency[0])
    ensures Older(times, x, c.recency[1..])
  {
    TailInOrder(times, c.recency);
    if x !in c.live {
      assert Older(times, x, c.recency);
    }
  }

  lemma AddRecent(before: Key -> nat, after: Key -> nat, c: Cache, k: Key, dims: Dims, now: nat)
    requires Recent(before, c) && UsedNow(before, after, k, now)
    ensures Recent(after, Add(c, k, dims))
  {
    if k in c.live {
      TouchLive(before, after, c, Add(c, k, dims), k, now);
    } else if |c.recency| < c.size {
      TouchNew(before, after, c, k, dims, now);
    } else {
      TouchFull(before, after, c, k, dims, now);
    }
  }

  lemma GetRecent(before: Key -> nat, after: Key -> nat, c: Cache, k: Key, now: nat)
    requires Recent(before, c) && UsedNow(before, after, k, now) && Find(c, k).Some?
    ensures Recent(after, Get(c, k))
  {
    if k in c.live {
      TouchLive(before, after, c, Get(c, k), k, now);
    } else {
      AddRecent(before, after, c.(evicted := c.evicted - {k}), k, c.evicted[k], now);
    }
  }

  function Times(size: Size, ops: seq<Op>): Key -> nat {
    (k: Key) => LastUse(size, ops, k)
  }

  lemma TimesNext(size: Size, ops: seq<Op>, n: nat, k: Key)
    requires n + 1 == |ops| && ops[n] != Clear && Uses(After(size, ops[..n]), ops[n], k)
    ensures UsedNow(Times(size, ops[..n]), Times(size, ops), k, n + 1)
  {
    forall x ensures Times(size, ops[..n])(x) < n + 1 {
      LastUseBound(size, ops[..n], x);
    }
  }

  lemma TimesStay(size: Size, ops: seq<Op>, n: nat)
    requires n + 1 == |ops| && forall k :: !Uses(After(size, ops[..n]), ops[n], k)
    ensures forall k :: Times(size, ops)(k) == Times(size, ops[..n])(k)
  {
  }

  lemma SameTimes(before: Key -> nat, after: Key -> nat, c: Cache, d: Cache)
    requires Recent(before, c) && d.recency == c.recency && d.live == c.live && d.size == c.size
    requires forall k :: after(k) == before(k)
    ensures Recent(after, d)
  {
    SameOrder(before, after, c.recency);
    forall x | after(x) > 0 && x !in d.live ensures Older(after, x, d.recency) {
      assert Older(before, x, c.recency);
    }
  }

  lemma {:induction false} RecencyIsLastUse(size: Size, ops: seq<Op>)
    ensures Recent(Times(size, ops), After(size, ops)) && After(size, ops).size == size
  {
    if ops != [] {
      var n := |ops| - 1;
      var c, op := After(size, ops[..n]), ops[n];
      RecencyIsLastUse(size, ops[..n]);
      if op.Recall? || (op.Look? && Find(c, op.key).Some?) {
        TimesNext(size, ops, n, op.key);
        UseStep(Times(size, ops[..n]), Times(size, ops), c, op, n + 1);
      } else {
        TimesStay(size, ops, n);
        SameTimes(Times(size, ops[..n]), Times(size, ops), c, Step(c, op));
      }
    }
  }

  lemma UseStep(before: Key -> nat, after: Key -> nat, c: Cache, op: Op, now: nat)
    requires Recent(before, c) && !op.Clear? && UsedNow(before, after, op.key, now)
    requires op.Look? ==> Find(c, op.key).Some?
    ensures Recent(after, Step(c, op)) && Step(c, op).size == c.size
  {
    if op.Look? || Find(c, op.key).Some? {
      GetRecent(before, after, c, op.key, now);
    } else {
      AddRecent(before, after, c, op.key, op.dims, now);
    }
  }

  /** After any uses and clean-ups, a live key was used after every key that was used and is not live, and one is
      missing only if the cache is full. */
  lemma LiveKeysWereUsedLast(size: Size, ops: seq<Op>, k: Key, other: Key)
    ensures k in After(size, ops).live ==> LastUse(size, ops, k) > 0
    ensures LastUse(size, ops, other) > 0 && other !in After(size, ops).live ==>
              && |After(size, ops).recency| == size
              && (k in After(size, ops).live ==> LastUse(size, ops, other) < LastUse(size, ops, k))
  {
    RecencyIsLastUse(size, ops);
    var c := After(size, ops);
    if k in c.live {
      assert k in c.recency;
      AllUsed(Times(size, ops), c.recency, k);
    }
    assert Times(size, ops)(other) == LastUse(size, ops, other);
  }
}
