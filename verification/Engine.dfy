/** The sharded store of engine.rs: 64 maps, routed by a hash, behaving as one flat map. */
module Engine {
  import opened Prelude
  import opened Protocol
  import opened Keyspace
  import opened LogText
  import Locks

  const SHARD_COUNT: nat := 64

  /** `hash & SHARD_MASK`. */
  function ShardOfHash(h: bv64): (i: nat)
    ensures i < SHARD_COUNT
  {
    (h & 63) as nat
  }

  lemma MaskTwice(h: bv64)
    ensures (h & 63) & 63 == h & 63 && (h < 64 ==> h & 63 == h)
  {
  }

  /** The low six bits of the hash are the index, so every index is that of some hash. */
  lemma LowBitsDecide(h: bv64)
    ensures ShardOfHash(h) == ShardOfHash(h & 63)
    ensures h < 64 ==> ShardOfHash(h) == h as nat
  {
    MaskTwice(h);
  }

  // ---- Shards as a flat map ----

  /** Every key lives only in the shard it is routed to. */
  ghost predicate Routed(shards: seq<Store>, route: Bytes -> nat) {
    && (forall k :: route(k) < |shards|)
    && (forall i, k :: 0 <= i < |shards| && k in shards[i] ==> route(k) == i)
  }

  function Flatten(shards: seq<Store>): Store {
    if shards == [] then map[] else Flatten(shards[..|shards| - 1]) + shards[|shards| - 1]
  }

  lemma {:induction false} FlattenKeys(shards: seq<Store>, route: Bytes -> nat, n: nat, k: Bytes)
    requires Routed(shards, route) && n <= |shards|
    ensures Look(Flatten(shards[..n]), k) == if route(k) < n then Look(shards[route(k)], k) else None
  {
    if n > 0 {
      FlattenKeys(shards, route, n - 1, k);
      assert shards[..n][..n - 1] == shards[..n - 1];
    }
  }

  lemma FlattenLook(shards: seq<Store>, route: Bytes -> nat, k: Bytes)
    requires Routed(shards, route)
    ensures Look(Flatten(shards), k) == Look(shards[route(k)], k)
  {
    FlattenKeys(shards, route, |shards|, k);
    assert shards[..|shards|] == shards;
  }

  /** Changing one key in its shard changes just that key of the flat map, and keeps the routing. */
  lemma FlattenPut(shards: seq<Store>, route: Bytes -> nat, k: Bytes, cell: Cell)
    requires Routed(shards, route)
    ensures var i := route(k);
            var shards' := shards[i := Put(shards[i], k, cell)];
            Routed(shards', route) && Flatten(shards') == Put(Flatten(shards), k, cell)
  {
    var i := route(k);
    var shards' := shards[i := Put(shards[i], k, cell)];
    forall j
      ensures Look(Flatten(shards'), j) == Look(Put(Flatten(shards), k, cell), j)
    {
      FlattenLook(shards, route, j);
      FlattenLook(shards', route, j);
    }
    SameStore(Flatten(shards'), Put(Flatten(shards), k, cell));
  }

  function TotalSize(shards: seq<Store>): nat {
    if shards == [] then 0 else TotalSize(shards[..|shards| - 1]) + |shards[|shards| - 1]|
  }

  lemma {:induction false} FlattenSize(shards: seq<Store>, route: Bytes -> nat, n: nat)
    requires Routed(shards, route) && n <= |shards|
    ensures |Flatten(shards[..n])| == TotalSize(shards[..n])
  {
    if n > 0 {
      FlattenSize(shards, route, n - 1);
      assert shards[..n][..n - 1] == shards[..n - 1];
      var a, b := Flatten(shards[..n - 1]), shards[n - 1];
      forall k | k in a
        ensures k !in b
      {
        FlattenKeys(shards, route, n - 1, k);
      }
      assert (a + b).Keys == a.Keys + b.Keys;
      assert |a.Keys + b.Keys| == |a.Keys| + |b.Keys|;
    }
  }

  lemma {:induction false} EmptyShards(shards: seq<Store>)
    requires forall i :: 0 <= i < |shards| ==> shards[i] == map[]
    ensures Flatten(shards) == map[]
  {
    if shards != [] { EmptyShards(shards[..|shards| - 1]); }
  }

  /** What `write_multi_shards` and `read_multi_shards` hand out. */
  datatype MultiGuard = Single(shard: nat) | Double(first: nat, second: nat)

  class ShardedDb {
    const hasher: Bytes -> bv64
    const shards: array<Store>
    /** Everything sent to the log channel. */
    var sent: Bytes

    function Route(): Bytes -> nat { k => ShardOfHash(hasher(k)) }

    ghost predicate Valid()
      reads this, shards
    {
      shards.Length == SHARD_COUNT && Routed(shards[..], Route())
    }

    /** The one map that clients see. */
    ghost function Flat(): Store
      reads this, shards
    {
      Flatten(shards[..])
    }

    constructor (hasher: Bytes -> bv64)
      ensures this.hasher == hasher && Valid() && fresh(shards)
      ensures Flat() == map[] && sent == ""
    {
      this.hasher := hasher;
      shards := new Store[SHARD_COUNT];
      sent := "";
      new;
      for i := 0 to SHARD_COUNT
        invariant sent == ""
        invariant forall j :: 0 <= j < i ==> shards[j] == map[]
      {
        shards[i] := map[];
      }
      assert forall k :: Route()(k) == ShardOfHash(hasher(k));
      EmptyShards(shards[..]);
    }

    function ShardIndex(key: Bytes): (i: nat)
      ensures i < SHARD_COUNT && i == Route()(key)
    {
      ShardOfHash(hasher(key))
    }

    /** The map behind guard `i`, which belongs to the key. */
    method ReadAt(i: nat, ghost key: Bytes) returns (shard: Store)
      requires Valid() && i == ShardIndex(key)
      ensures shard == shards[i] && Look(shard, key) == Look(Flat(), key)
    {
      shard := shards[i];
      FlattenLook(shards[..], Route(), key);
    }

    /** Write a changed map back through guard `i`: only the key it belongs to may differ. */
    method WriteAt(i: nat, ghost key: Bytes, shard: Store, ghost cell: Cell)
      requires Valid() && i == ShardIndex(key) && shard == Put(shards[i], key, cell)
      modifies shards
      ensures Valid() && Flat() == Put(old(Flat()), key, cell)
      ensures shards[..] == old(shards[..])[i := shard]
    {
      FlattenPut(shards[..], Route(), key, cell);
      shards[i] := shard;
      assert shards[..] == old(shards[..])[i := shard];
    }

    /** The map behind the guard of a key's shard. */
    method Guarded(key: Bytes) returns (shard: Store)
      requires Valid()
      ensures shard == shards[ShardIndex(key)] && Look(shard, key) == Look(Flat(), key)
    {
      shard := ReadAt(ShardIndex(key), key);
    }

    method Update(key: Bytes, shard: Store, ghost cell: Cell)
      requires Valid() && shard == Put(shards[ShardIndex(key)], key, cell)
      modifies shards
      ensures Valid() && Flat() == Put(old(Flat()), key, cell)
      ensures shards[..] == old(shards[..])[ShardIndex(key) := shard]
    {
      WriteAt(ShardIndex(key), key, shard, cell);
    }

    method SendRecord(c: Command)
      requires Logged(c)
      modifies this`sent
      ensures sent == old(sent) + PrintRecord(c, Live)
    {
      sent := sent + PrintRecord(c, Live);
    }

    /** The guards are those of the two keys, the first key's first. */
    predicate GuardsOf(guard: MultiGuard, keyA: Bytes, keyB: Bytes) {
      match guard
      case Single(i) => i == ShardIndex(keyA) == ShardIndex(keyB)
      case Double(i, j) => i == ShardIndex(keyA) && j == ShardIndex(keyB) && i != j
    }

    /** Whichever key comes first, its guard is the first one, and the shards are locked in ascending order. */
    method WriteMultiShards(keyA: Bytes, keyB: Bytes) returns (guard: MultiGuard, order: seq<nat>)
      ensures GuardsOf(guard, keyA, keyB)
      ensures forall i, j :: 0 <= i < j < |order| ==> order[i] < order[j]
      ensures forall i :: i in order <==> i == ShardIndex(keyA) || i == ShardIndex(keyB)
      ensures Locks.WriteMultiShards(ShardIndex(keyA), ShardIndex(keyB)) ==
              seq(|order|, i requires 0 <= i < |order| => Locks.Acquire(order[i], Locks.Write))
    {
      var idxA, idxB := ShardIndex(keyA), ShardIndex(keyB);
      if idxA == idxB {
        return Single(idxA), [idxA];
      }
      if idxA < idxB {
        guard, order := Double(idxA, idxB), [idxA, idxB];
      } else {
        guard, order := Double(idxA, idxB), [idxB, idxA];
      }
    }

    /** For reading, both branches lock the first key's shard first: the order ascends only if the keys' shards do. */
    method ReadMultiShards(keyA: Bytes, keyB: Bytes) returns (guard: MultiGuard, order: seq<nat>)
      ensures GuardsOf(guard, keyA, keyB)
      ensures (forall i, j :: 0 <= i < j < |order| ==> order[i] < order[j]) <==> ShardIndex(keyA) <= ShardIndex(keyB)
      ensures forall i :: i in order <==> i == ShardIndex(keyA) || i == ShardIndex(keyB)
      ensures Locks.ReadMultiShards(ShardIndex(keyA), ShardIndex(keyB)) ==
              seq(|order|, i requires 0 <= i < |order| => Locks.Acquire(order[i], Locks.Read))
    {
      var idxA, idxB := ShardIndex(keyA), ShardIndex(keyB);
      if idxA == idxB {
        return Single(idxA), [idxA];
      }
      if idxA < idxB {
        guard, order := Double(idxA, idxB), [idxA, idxB];
      } else {
        guard, order := Double(idxA, idxB), [idxA, idxB];
        assert order[0] > order[1];
      }
    }

    /** Collect the keys of one map in whatever order it iterates. */
    method KeysIn(shard: Store) returns (keys: seq<Bytes>)
      ensures Lists(keys, shard.Keys)
    {
      keys := Enumerate(shard.Keys);
    }

    lemma ShardKeys(i: nat)
      requires Valid() && i < SHARD_COUNT
      ensures shards[i].Keys == set k | k in Flat().Keys && ShardIndex(k) == i
    {
      forall k
        ensures k in shards[i] <==> k in Flat() && ShardIndex(k) == i
      {
        FlattenLook(shards[..], Route(), k);
        assert k in Flat() <==> Look(Flat(), k).Some?;
      }
    }

    method ScanShard(cursor: nat) returns (keys: seq<Bytes>)
      requires Valid()
      ensures cursor >= SHARD_COUNT ==> keys == []
      ensures cursor < SHARD_COUNT ==>
                Lists(keys, set k | k in Flat().Keys && ShardIndex(k) == cursor)
    {
      if cursor >= SHARD_COUNT {
        return [];
      }
      keys := KeysIn(shards[cursor]);
      ShardKeys(cursor);
    }

    /** All keys, each one once. */
    method GetAllKeys() returns (keys: seq<Bytes>)
      requires Valid()
      ensures Lists(keys, Flat().Keys)
    {
      keys := [];
      for i := 0 to SHARD_COUNT
        invariant Lists(keys, set k | k in Flat().Keys && ShardIndex(k) < i)
      {
        var more := KeysIn(shards[i]);
        ShardKeys(i);
        ghost var seen := set k | k in Flat().Keys && ShardIndex(k) < i;
        ListsAppend(keys, more, seen, shards[i].Keys);
        keys := keys + more;
        assert seen + shards[i].Keys == set k | k in Flat().Keys && ShardIndex(k) < i + 1;
      }
      assert (set k | k in Flat().Keys && ShardIndex(k) < SHARD_COUNT) == Flat().Keys;
    }

    method DbSize() returns (total: nat)
      requires Valid()
      ensures total == |Flat()|
    {
      total := 0;
      for i := 0 to SHARD_COUNT
        invariant total == TotalSize(shards[..i])
      {
        assert shards[..i + 1][..i] == shards[..i];
        total := total + |shards[i]|;
      }
      assert shards[..SHARD_COUNT] == shards[..];
      assert shards[..][..SHARD_COUNT] == shards[..];
      FlattenSize(shards[..], Route(), SHARD_COUNT);
    }
  }
}
