/**
 * `GlacierMap` (vm/ds/Map.c): separate chaining over `numBuckets` buckets.
 * The hash is the constant 0, so every entry is in the chain of bucket 0,
 * a lookup is a scan of that chain from its head, and `Set` appends without
 * ever replacing an entry. When the chain already holds four entries, `Set`
 * rebuilds into twice as many buckets and retries; the rebuilt chain is the
 * same chain, so the retry rebuilds again, and no retry ever appends. The
 * recursion ends without success: with real memory a growing allocation
 * fails and GLC_OOM comes back; if every allocation succeeds, as this model
 * assumes, the `size_t` bucket count doubles to 0 and the re-insert into
 * the new map computes `hash % 0`, which is undefined behaviour. The model
 * answers DIVERGES for that outcome.
 */
module VmMap {
  import opened Wrappers
  import opened VmStatus
  import opened VmValue

  /** GLC_MAP_INIT_BUCKET_LEN. */
  const MAP_INIT_BUCKET_LEN: nat := 2

  /** GLC_MAP_MAX_DEPTH. */
  const MAP_MAX_DEPTH: nat := 3

  /** `glacierMapHash`: every key hashes to 0. */
  function Hash(v: Value): nat
  {
    0
  }

  /** The number of links `Set` follows from the head of the bucket to its last node. */
  function Depth(chain: seq<(Value, Value)>): nat
  {
    if chain == [] then 0 else |chain| - 1
  }

  /** The values of a `size_t`: the bucket count wraps modulo 2^64. */
  const SIZE_T_RANGE: nat := 0x1_0000_0000_0000_0000

  /** `glacierMapRebuild`: twice the buckets as a `size_t`, the same entries re-inserted in chain order. */
  function Rebuilt(m: MapState): MapState
  {
    MapState((2 * m.numBuckets) % SIZE_T_RANGE, m.chain)
  }

  /**
   * `glacierMapSet`. At depth 3 or more it rebuilds and calls itself again
   * on the rebuilt map; that call never succeeds (DIVERGES: GLC_OOM or
   * undefined behaviour, see RetryNeverSucceeds), and the state is the one
   * after the first rebuild.
   */
  function MapSet(m: MapState, key: Value, value: Value): (Status, MapState)
  {
    if Depth(m.chain) >= MAP_MAX_DEPTH then (DIVERGES, Rebuilt(m))
    else (OK, m.(chain := m.chain + [(key, value)]))
  }

  /**
   * `glacierMapGet` on the chain: the value of the first entry whose key
   * equals the one asked for, or KEY_MISS. A key comparison that trips
   * the C `assert` or reads the union as the wrong member stops the scan
   * with that outcome.
   */
  function MapGot(chain: seq<(Value, Value)>, key: Value): (r: (Status, Option<Value>))
    ensures r.0 == OK <==> r.1.Some?
  {
    if chain == [] then (KEY_MISS, None)
    else match KeyEq(chain[0].0, key)
      case Err(e) => (e, None)
      case Ok(true) => (OK, Some(chain[0].1))
      case Ok(false) => MapGot(chain[1..], key)
  }

  /** The map after `n` rebuilds. */
  function Rebuilds(m: MapState, n: nat): MapState
  {
    if n == 0 then m else Rebuilt(Rebuilds(m, n - 1))
  }

  /**
   * A set succeeds exactly while the chain has fewer than four entries,
   * and then appends the entry; so a map never holds more than four.
   */
  lemma SetAppends(m: MapState, key: Value, value: Value)
    requires |m.chain| <= MAP_MAX_DEPTH + 1
    ensures var (st, m') := MapSet(m, key, value);
      (st == OK <==> |m.chain| <= MAP_MAX_DEPTH) &&
      (st == OK ==> m' == MapState(m.numBuckets, m.chain + [(key, value)])) &&
      |m'.chain| <= MAP_MAX_DEPTH + 1
  {
  }

  function Pow2(n: nat): (r: nat)
    ensures r >= 1
  {
    if n == 0 then 1 else 2 * Pow2(n - 1)
  }

  /**
   * Once a set reaches the rebuild, every retry meets the same chain after
   * any number of rebuilds, so it rebuilds again and never appends; the
   * bucket count is doubled modulo 2^64 each time.
   */
  lemma {:induction false} RetryNeverSucceeds(m: MapState, key: Value, value: Value, n: nat)
    requires MapSet(m, key, value).0 == DIVERGES && m.numBuckets < SIZE_T_RANGE
    ensures Rebuilds(m, n).chain == m.chain
    ensures MapSet(Rebuilds(m, n), key, value).0 == DIVERGES
    ensures Rebuilds(m, n).numBuckets == (m.numBuckets * Pow2(n)) % SIZE_T_RANGE
  {
    if n > 0 {
      RetryNeverSucceeds(m, key, value, n - 1);
    }
    RebuiltCount(m, n);
  }

  lemma {:induction false} RebuiltCount(m: MapState, n: nat)
    requires m.numBuckets < SIZE_T_RANGE
    ensures Rebuilds(m, n).numBuckets == (m.numBuckets * Pow2(n)) % SIZE_T_RANGE
  {
    if n > 0 {
      RebuiltCount(m, n - 1);
      var x := m.numBuckets * Pow2(n - 1);
      DoubleMod(x);
      TwiceProduct(m.numBuckets, Pow2(n - 1));
    }
  }

  lemma TwiceProduct(a: nat, p: nat)
    ensures a * (2 * p) == 2 * (a * p)
  {
  }

  lemma DoubleMod(x: nat)
    ensures (2 * (x % SIZE_T_RANGE)) % SIZE_T_RANGE == (2 * x) % SIZE_T_RANGE
  {
    var q := x / SIZE_T_RANGE;
    assert 2 * x == 2 * (x % SIZE_T_RANGE) + (2 * q) * SIZE_T_RANGE;
  }

  /**
   * From the two buckets of `glacierMapInit`, the first 62 rebuilds give
   * 4, 8, ... up to 2^63 buckets, and the 63rd gives 0: the map it re-inserts
   * into has no bucket, so its `hash % numBuckets` is a division by zero.
   */
  lemma BucketsWrapToZero(m: MapState)
    requires m.numBuckets == MAP_INIT_BUCKET_LEN
    ensures forall k :: 0 <= k < 63 ==> Rebuilds(m, k).numBuckets == Pow2(k + 1) > 0
    ensures Rebuilds(m, 63).numBuckets == 0
  {
    forall k | 0 <= k < 63
      ensures Rebuilds(m, k).numBuckets == Pow2(k + 1)
    {
      PowersFromTwo(m, k);
    }
    PowersFromTwo(m, 62);
    Pow2Word();
  }

  lemma {:induction false} PowersFromTwo(m: MapState, k: nat)
    requires m.numBuckets == MAP_INIT_BUCKET_LEN && k < 63
    ensures Rebuilds(m, k).numBuckets == Pow2(k + 1)
  {
    if k > 0 {
      PowersFromTwo(m, k - 1);
      Pow2Mono(k + 1, 63);
      Pow2Word();
    }
  }

  /** 2^64 is the range of a `size_t`. */
  lemma Pow2Word()
    ensures Pow2(64) == SIZE_T_RANGE && Pow2(63) == SIZE_T_RANGE / 2
  {
    assert Pow2(8) == 256;
    Pow2Add(8, 8);
    assert Pow2(16) == 0x1_0000;
    Pow2Add(16, 16);
    assert Pow2(32) == 0x1_0000_0000;
    Pow2Add(32, 32);
    assert Pow2(64) == 2 * Pow2(63);
  }

  lemma {:induction false} Pow2Mono(a: nat, b: nat)
    requires a <= b
    ensures Pow2(a) <= Pow2(b)
    decreases b
  {
    if a < b {
      Pow2Mono(a, b - 1);
    }
  }

  lemma {:induction false} Pow2Add(a: nat, b: nat)
    ensures Pow2(a + b) == Pow2(a) * Pow2(b)
  {
    if a > 0 {
      Pow2Add(a - 1, b);
    }
  }

  /** Int and string keys equal themselves. */
  lemma KeyEqReflexive(k: Value)
    requires k.IntVal? || k.StrVal?
    ensures KeyEq(k, k) == Ok(true)
  {
  }

  /**
   * Appending never shadows: a lookup that ends before the new entry (found
   * or failed) is unchanged, and one that ran off the end now meets the new
   * entry.
   */
  lemma {:induction false} AppendKeepsEarlierLookups(chain: seq<(Value, Value)>, k: Value, v: Value, key: Value)
    ensures MapGot(chain, key).0 != KEY_MISS ==> MapGot(chain + [(k, v)], key) == MapGot(chain, key)
    ensures MapGot(chain, key).0 == KEY_MISS ==> MapGot(chain + [(k, v)], key) == MapGot([(k, v)], key)
  {
    if chain != [] {
      assert (chain + [(k, v)])[1..] == chain[1..] + [(k, v)];
      AppendKeepsEarlierLookups(chain[1..], k, v, key);
    }
  }

  /**
   * Setting a key twice keeps the first value: with no earlier entry for
   * the key, a lookup after Set(key, v1) and Set(key, v2) returns v1.
   */
  lemma FirstSetWins(m: MapState, key: Value, v1: Value, v2: Value)
    requires key.IntVal? || key.StrVal?
    requires MapGot(m.chain, key).0 == KEY_MISS
    requires MapSet(m, key, v1).0 == OK && MapSet(MapSet(m, key, v1).1, key, v2).0 == OK
    ensures MapGot(MapSet(MapSet(m, key, v1).1, key, v2).1.chain, key) == (OK, Some(v1))
  {
    KeyEqReflexive(key);
    AppendKeepsEarlierLookups(m.chain, key, v1, key);
    AppendKeepsEarlierLookups(m.chain + [(key, v1)], key, v2, key);
  }

  /** Lookup finds the first entry with an equal key, when every comparison before it is defined. */
  lemma {:induction false} GetFindsFirst(chain: seq<(Value, Value)>, key: Value, i: nat)
    requires i < |chain| && KeyEq(chain[i].0, key) == Ok(true)
    requires forall j :: 0 <= j < i ==> KeyEq(chain[j].0, key) == Ok(false)
    ensures MapGot(chain, key) == (OK, Some(chain[i].1))
  {
    if i > 0 {
      GetFindsFirst(chain[1..], key, i - 1);
    }
  }

  /** `GlacierMap`. */
  class Map {
    var numBuckets: nat
    var chain: seq<(Value, Value)>

    ghost predicate Valid()
      reads this
    {
      |chain| <= MAP_MAX_DEPTH + 1
    }

    function St(): MapState
      reads this
    {
      MapState(numBuckets, chain)
    }

    /** `glacierMapInit`: two empty buckets. */
    constructor ()
      ensures Valid() && St() == MapState(MAP_INIT_BUCKET_LEN, [])
    {
      numBuckets := MAP_INIT_BUCKET_LEN;
      chain := [];
    }

    /** The empty map `glacierMapRebuild` builds with `numBuckets` buckets. */
    constructor Sized(numBuckets: nat)
      ensures Valid() && St() == MapState(numBuckets, [])
    {
      this.numBuckets := numBuckets;
      chain := [];
    }

    /** `glacierMapSet`, up to the retry after a rebuild, after which no insert succeeds (DIVERGES). */
    method Set(key: Value, value: Value) returns (status: Status)
      requires Valid()
      modifies this
      ensures Valid()
      ensures (status, St()) == MapSet(old(St()), key, value)
      decreases if |chain| > MAP_MAX_DEPTH then 2 else 0
    {
      var depth := 0;
      if chain != [] {
        var current := 0;
        while current + 1 < |chain|
          invariant depth == current < |chain|
        {
          current := current + 1;
          depth := depth + 1;
        }
      }
      if depth >= MAP_MAX_DEPTH {
        Rebuild();
        return DIVERGES;
      }
      chain := chain + [(key, value)];
      status := OK;
    }

    /** `glacierMapRebuild`. */
    method Rebuild()
      requires Valid()
      modifies this
      ensures Valid() && St() == Rebuilt(old(St()))
      decreases 1
    {
      var newMap := new Map.Sized((numBuckets * 2) % SIZE_T_RANGE);
      var i := 0;
      while i < |chain|
        invariant 0 <= i <= |chain|
        invariant numBuckets == old(numBuckets) && chain == old(chain)
        invariant fresh(newMap) && newMap.Valid()
        invariant newMap.St() == MapState((2 * numBuckets) % SIZE_T_RANGE, chain[..i])
      {
        var status := newMap.Set(chain[i].0, chain[i].1);
        assert chain[..i + 1] == chain[..i] + [chain[i]];
        i := i + 1;
      }
      assert chain[..i] == chain;
      numBuckets, chain := newMap.numBuckets, newMap.chain;
    }

    /** `glacierMapGet`. */
    method Get(key: Value) returns (status: Status, value: Option<Value>)
      ensures (status, value) == MapGot(chain, key)
    {
      var i := 0;
      while i < |chain|
        invariant 0 <= i <= |chain|
        invariant MapGot(chain, key) == MapGot(chain[i..], key)
      {
        assert chain[i..][1..] == chain[i + 1..];
        var eq := KeyEq(chain[i].0, key);
        if eq.Err? {
          return eq.error, None;
        }
        if eq.value {
          return OK, Some(chain[i].1);
        }
        i := i + 1;
      }
      status, value := KEY_MISS, None;
    }

    /** `glacierMapDestroy`: no buckets left. */
    method Destroy()
      modifies this
      ensures numBuckets == 0 && chain == []
    {
      numBuckets := 0;
      chain := [];
    }
  }
}
