/** The bounded sharded store behind the cache (store.go). */
module Store {
  import opened Base

  /** A 64-bit cache key. */
  newtype Key = k: int | 0 <= k < 0x1_0000_0000_0000_0000

  const SHARDS := 256

  function ShardOf(key: Key): (i: nat)
    ensures i < SHARDS
  {
    key as int % SHARDS  // key & 255
  }

  function ShardSize(capacity: int): (size: nat)
    ensures size >= 1
  {
    var size := (capacity + SHARDS - 1) / SHARDS;
    if size < 1 then 1 else size
  }

  /** The capacity of a store asked for `c` entries is the least multiple of the
      shard count that is at least `c` and at least one entry a shard. */
  lemma CapacityRoundsUp(c: int)
    ensures SHARDS == 256
    ensures ShardSize(c) * SHARDS >= c && ShardSize(c) * SHARDS >= SHARDS
    ensures forall k: nat :: k * SHARDS >= c && k * SHARDS >= SHARDS ==> k >= ShardSize(c)
    ensures c >= 1 ==> ShardSize(c) * SHARDS < (if c < SHARDS then SHARDS else c) + SHARDS
  {
  }

  // ---- One shard -----------------------------------------------------------

  /** `drop` is a choice the eviction loop of `Add` may make: one entry of a full
      shard that does not hold the key, nothing otherwise. */
  predicate MayDrop<V>(items: map<Key, V>, size: nat, key: Key, drop: set<Key>) {
    && drop <= items.Keys
    && |drop| == if key !in items && |items| >= size && items != map[] then 1 else 0
  }

  function Put<V>(items: map<Key, V>, key: Key, v: V, drop: set<Key>): map<Key, V> {
    (items - drop)[key := v]
  }

  /** Whether this Add counts: neither a replacement nor one out, one in. */
  predicate Counts<V>(items: map<Key, V>, key: Key, drop: set<Key>) {
    key !in items && drop == {}
  }

  lemma PutSize<V>(items: map<Key, V>, size: nat, key: Key, v: V, drop: set<Key>)
    requires MayDrop(items, size, key, drop)
    ensures |Put(items, key, v, drop)| == |items| + if Counts(items, key, drop) then 1 else 0
    ensures size >= 1 && |items| <= size ==> |Put(items, key, v, drop)| <= size
    ensures drop != {} ==> key !in items && |items| >= size
    ensures key !in items && |items| >= size && size >= 1 ==> |drop| == 1
  {
    KeptSize(items, drop);
    AddedSize(items - drop, key, v);
  }

  lemma KeptSize<V>(items: map<Key, V>, drop: set<Key>)
    requires drop <= items.Keys
    ensures |items - drop| == |items| - |drop|
  {
    assert (items - drop).Keys == items.Keys - drop;
  }

  lemma AddedSize<V>(items: map<Key, V>, key: Key, v: V)
    ensures |items[key := v]| == |items| + if key in items then 0 else 1
  {
    assert items[key := v].Keys == items.Keys + {key};
  }

  // ---- All shards ----------------------------------------------------------

  function Total<V>(shards: seq<map<Key, V>>): nat {
    if shards == [] then 0 else Total(shards[..|shards| - 1]) + |shards[|shards| - 1]|
  }

  lemma {:induction false} TotalAfter<V>(shards: seq<map<Key, V>>, i: nat, items: map<Key, V>)
    requires i < |shards|
    ensures Total(shards[i := items]) == Total(shards) - |shards[i]| + |items|
    decreases |shards|
  {
    var k := |shards| - 1;
    if i == k {
      assert shards[i := items][..k] == shards[..k];
    } else {
      assert shards[i := items][..k] == shards[..k][i := items];
      TotalAfter(shards[..k], i, items);
    }
  }

  lemma {:induction false} TotalBound<V>(shards: seq<map<Key, V>>, size: nat)
    requires forall i :: 0 <= i < |shards| ==> |shards[i]| <= size
    ensures Total(shards) <= |shards| * size
    decreases |shards|
  {
    if shards != [] {
      TotalBound(shards[..|shards| - 1], size);
      assert |shards| * size == (|shards| - 1) * size + size;
    }
  }

  lemma {:induction false} TotalOfEmpty<V>(shards: seq<map<Key, V>>)
    requires forall i :: 0 <= i < |shards| ==> shards[i] == map[]
    ensures Total(shards) == 0
    decreases |shards|
  {
    if shards != [] {
      TotalOfEmpty(shards[..|shards| - 1]);
    }
  }

  /** Every key sits in its own shard only, and no shard is over its size. */
  ghost predicate Sharded<V>(shards: seq<map<Key, V>>, size: nat) {
    && |shards| == SHARDS
    && (forall i, k :: 0 <= i < |shards| && k in shards[i] ==> ShardOf(k) == i)
    && (forall i :: 0 <= i < |shards| ==> |shards[i]| <= size)
  }

  function Find<V>(shards: seq<map<Key, V>>, key: Key): Option<V>
    requires |shards| == SHARDS
  {
    if key in shards[ShardOf(key)] then Some(shards[ShardOf(key)][key]) else None
  }

  function Lookup<V>(flat: map<Key, V>, key: Key): Option<V> {
    if key in flat then Some(flat[key]) else None
  }

  function PutIn<V>(shards: seq<map<Key, V>>, key: Key, v: V, drop: set<Key>): seq<map<Key, V>>
    requires |shards| == SHARDS
  {
    shards[ShardOf(key) := Put(shards[ShardOf(key)], key, v, drop)]
  }

  lemma PutInKeepsSharded<V>(shards: seq<map<Key, V>>, size: nat, key: Key, v: V, drop: set<Key>)
    requires size >= 1 && Sharded(shards, size) && MayDrop(shards[ShardOf(key)], size, key, drop)
    ensures Sharded(PutIn(shards, key, v, drop), size)
    ensures Total(PutIn(shards, key, v, drop)) ==
            Total(shards) + if Counts(shards[ShardOf(key)], key, drop) then 1 else 0
  {
    var items := shards[ShardOf(key)];
    PutSize(items, size, key, v, drop);
    TotalAfter(shards, ShardOf(key), Put(items, key, v, drop));
  }

  /** The shards together hold exactly what the plain map `flat` holds. */
  ghost predicate Flattens<V>(flat: map<Key, V>, shards: seq<map<Key, V>>)
    requires |shards| == SHARDS
  {
    && (forall k :: k in flat <==> k in shards[ShardOf(k)])
    && (forall k :: k in flat ==> flat[k] == shards[ShardOf(k)][k])
  }

  /** Sharding is invisible: an Add to the shards is the same Add to the plain map,
      with what is dropped taken from the shard of the key. */
  lemma PutInFlattens<V>(flat: map<Key, V>, shards: seq<map<Key, V>>, size: nat, key: Key, v: V, drop: set<Key>)
    requires Sharded(shards, size) && Flattens(flat, shards)
    requires MayDrop(shards[ShardOf(key)], size, key, drop)
    ensures Flattens(Put(flat, key, v, drop), PutIn(shards, key, v, drop))
    ensures drop <= flat.Keys && (drop != {} ==> key !in flat) && forall k :: k in drop ==> ShardOf(k) == ShardOf(key)
  {
    var items := shards[ShardOf(key)];
    forall k: Key
      ensures k in Put(flat, key, v, drop) <==> k in PutIn(shards, key, v, drop)[ShardOf(k)]
    {
      assert ShardOf(k) != ShardOf(key) ==> PutIn(shards, key, v, drop)[ShardOf(k)] == shards[ShardOf(k)];
    }
  }

  /** What of a plain map belongs to one shard. */
  function InShard<V>(flat: map<Key, V>, i: nat): set<Key> {
    set k | k in flat && ShardOf(k) == i
  }

  /** MayDrop on the plain map: one entry of the key's shard when that is full and does
      not hold the key, nothing otherwise. */
  predicate MayDropFlat<V>(flat: map<Key, V>, size: nat, key: Key, drop: set<Key>) {
    var shard := InShard(flat, ShardOf(key));
    && drop <= shard
    && |drop| == if key !in flat && |shard| >= size && shard != {} then 1 else 0
  }

  /** The plain map may drop exactly what the shards may. */
  lemma SameDrops<V>(flat: map<Key, V>, shards: seq<map<Key, V>>, size: nat, key: Key, drop: set<Key>)
    requires Sharded(shards, size) && Flattens(flat, shards)
    ensures MayDrop(shards[ShardOf(key)], size, key, drop) <==> MayDropFlat(flat, size, key, drop)
  {
    var items := shards[ShardOf(key)];
    assert InShard(flat, ShardOf(key)) == items.Keys;
    assert items == map[] <==> items.Keys == {};
  }

  class StoreShard<V> {
    const size: nat
    var items: map<Key, V>

    constructor (size: nat)
      ensures this.size == size && items == map[]
    {
      this.size, items := size, map[];
    }

    /** The part of `Add` under the shard lock. */
    method Add(key: Key, v: V) returns (ghost drop: set<Key>, replacing: bool)
      modifies this
      ensures MayDrop(old(items), size, key, drop) && items == Put(old(items), key, v, drop)
      ensures replacing <==> !Counts(old(items), key, drop)
      ensures drop != {} ==> key !in old(items) && |old(items)| >= size
    {
      replacing := key in items;
      drop := {};
      if !replacing && |items| >= size && items != map[] {
        assert items.Keys != {};
        var k :| k in items;
        items := items - {k};
        drop := {k};
        replacing := true;
      }
      items := items[key := v];
    }
  }

  class Store<V> {
    const shards: seq<StoreShard<V>>
    var n: int
    ghost var items: seq<map<Key, V>>  // what each shard holds

    ghost predicate Valid()
      reads this, shards
    {
      && |shards| == |items| == SHARDS
      && (forall i, j :: 0 <= i < j < SHARDS ==> shards[i] != shards[j])
      && (forall i :: 0 <= i < SHARDS ==> shards[i].items == items[i] && shards[i].size == shards[0].size)
      && shards[0].size >= 1
      && Sharded(items, shards[0].size)
      && n == Total(items)
    }

    constructor (capacity: int)
      ensures Valid() && fresh(shards)
      ensures forall i :: 0 <= i < SHARDS ==> items[i] == map[]
      ensures shards[0].size == ShardSize(capacity)
    {
      var size := ShardSize(capacity);
      var made: seq<StoreShard<V>> := [];
      for i := 0 to SHARDS
        invariant |made| == i
        invariant forall j :: 0 <= j < i ==> fresh(made[j]) && made[j].size == size && made[j].items == map[]
        invariant forall j, k :: 0 <= j < k < i ==> made[j] != made[k]
      {
        var shard := new StoreShard<V>(size);
        made := made + [shard];
      }
      shards := made;
      n := 0;
      items := seq(SHARDS, _ => map[]);
      new;
      TotalOfEmpty(items);
    }

    function Capacity(): nat
      requires |shards| == SHARDS
    {
      shards[0].size * SHARDS
    }

    method Get(key: Key) returns (v: Option<V>)
      requires Valid()
      ensures v == Find(items, key)
    {
      var shard := shards[ShardOf(key)];
      v := if key in shard.items then Some(shard.items[key]) else None;
    }

    method Add(key: Key, v: V) returns (ghost drop: set<Key>)
      requires Valid()
      modifies this`n, this`items, shards
      ensures Valid()
      ensures MayDrop(old(items)[ShardOf(key)], shards[0].size, key, drop)
      ensures items == PutIn(old(items), key, v, drop)
    {
      var i := ShardOf(key);
      var replacing;
      drop, replacing := shards[i].Add(key, v);
      if !replacing {
        n := n + 1;
      }
      PutInKeepsSharded(items, shards[0].size, key, v, drop);
      items := items[i := shards[i].items];
    }

    /** Len is the number of entries, and never more than the capacity. */
    method Len() returns (len: int)
      requires Valid()
      ensures len == Total(items) && 0 <= len <= Capacity()
    {
      TotalBound(items, shards[0].size);
      len := n;
    }
  }
}
