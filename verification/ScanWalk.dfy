/** A client's walk over the keyspace with SCAN, while other clients change it between the calls. */
module ScanWalk {
  import opened Prelude
  import opened Keyspace
  import opened Engine
  import opened Server

  /** One call: the cursor sent, the keyspace at the moment its shard was read, and the keys returned. */
  datatype Call = Call(cursor: nat, db: Store, keys: seq<Bytes>)

  ghost predicate Answered(hasher: Bytes -> bv64, call: Call) {
    Lists(call.keys, set k | k in call.db.Keys && ShardOfHash(hasher(k)) == call.cursor)
  }

  /** The client starts at 0, follows the cursor, and stops when it is handed 0. */
  ghost predicate IsWalk(hasher: Bytes -> bv64, calls: seq<Call>) {
    && calls != [] && calls[0].cursor == 0
    && (forall i :: 0 <= i < |calls| ==> Answered(hasher, calls[i]))
    && (forall i :: 0 <= i < |calls| - 1 ==>
          NextCursor(calls[i].cursor) != 0 && calls[i + 1].cursor == NextCursor(calls[i].cursor))
  }

  predicate Ended(calls: seq<Call>)
    requires calls != []
  {
    NextCursor(calls[|calls| - 1].cursor) == 0
  }

  lemma {:induction false} CursorsCount(hasher: Bytes -> bv64, calls: seq<Call>, n: nat)
    requires IsWalk(hasher, calls) && n < |calls|
    ensures calls[n].cursor == n < SHARD_COUNT
  {
    if n > 0 {
      CursorsCount(hasher, calls, n - 1);
      assert NextCursor(calls[n - 1].cursor) != 0 && calls[n - 1 + 1].cursor == NextCursor(calls[n - 1].cursor);
    }
  }

  /** The walk ends with its 64th call, not earlier and not later. */
  lemma WalkEndsAfter64(hasher: Bytes -> bv64, calls: seq<Call>)
    requires IsWalk(hasher, calls)
    ensures |calls| <= SHARD_COUNT && (Ended(calls) <==> |calls| == SHARD_COUNT)
    ensures forall i :: 0 <= i < |calls| ==> calls[i].cursor == i
  {
    forall i | 0 <= i < |calls|
      ensures calls[i].cursor == i < SHARD_COUNT
    {
      CursorsCount(hasher, calls, i);
    }
    CursorsCount(hasher, calls, |calls| - 1);
  }

  function Returned(calls: seq<Call>): seq<Bytes> {
    if calls == [] then [] else Returned(calls[..|calls| - 1]) + calls[|calls| - 1].keys
  }

  lemma ListedOnce(keys: seq<Bytes>, s: set<Bytes>, k: Bytes)
    requires Lists(keys, s)
    ensures multiset(keys)[k] == if k in s then 1 else 0
  {
    if k in s {
      var i :| 0 <= i < |keys| && keys[i] == k;
      assert keys == keys[..i] + ([k] + keys[i + 1..]);
      assert k !in keys[..i] && k !in keys[i + 1..];
    }
  }

  lemma CallReturns(hasher: Bytes -> bv64, call: Call, k: Bytes, home: nat)
    requires Answered(hasher, call) && home == ShardOfHash(hasher(k))
    ensures multiset(call.keys)[k] == if k in call.db && home == call.cursor then 1 else 0
  {
    ListedOnce(call.keys, (set j | j in call.db.Keys && ShardOfHash(hasher(j)) == call.cursor), k);
  }

  /** Only the call for the key's own shard returns the key. */
  ghost predicate OnlyAtHome(calls: seq<Call>, k: Bytes, home: nat) {
    forall i :: 0 <= i < |calls| ==> multiset(calls[i].keys)[k] == if i == home && k in calls[i].db then 1 else 0
  }

  lemma WalkIsAtHome(hasher: Bytes -> bv64, calls: seq<Call>, k: Bytes, home: nat)
    requires IsWalk(hasher, calls) && home == ShardOfHash(hasher(k))
    ensures OnlyAtHome(calls, k, home)
  {
    forall i | 0 <= i < |calls|
      ensures multiset(calls[i].keys)[k] == if i == home && k in calls[i].db then 1 else 0
    {
      CursorsCount(hasher, calls, i);
      CallReturns(hasher, calls[i], k, home);
    }
  }

  lemma ReturnedLast(calls: seq<Call>, n: nat, k: Bytes)
    requires 0 < n <= |calls|
    ensures multiset(Returned(calls[..n]))[k] ==
            multiset(Returned(calls[..n - 1]))[k] + multiset(calls[n - 1].keys)[k]
  {
    assert calls[..n][..n - 1] == calls[..n - 1];
  }

  lemma {:induction false} ReturnedSoFar(calls: seq<Call>, n: nat, k: Bytes, home: nat)
    requires OnlyAtHome(calls, k, home) && n <= |calls|
    ensures multiset(Returned(calls[..n]))[k] == if home < n && k in calls[home].db then 1 else 0
  {
    if n > 0 {
      ReturnedSoFar(calls, n - 1, k, home);
      ReturnedLast(calls, n, k);
    }
  }

  /** A finished walk returned a key once if the key was there when its shard was read, and never otherwise. */
  lemma WalkReturnsEachKeyOnce(hasher: Bytes -> bv64, calls: seq<Call>, k: Bytes)
    requires IsWalk(hasher, calls) && Ended(calls)
    ensures |calls| == SHARD_COUNT
    ensures var i := ShardOfHash(hasher(k));
            multiset(Returned(calls))[k] == if k in calls[i].db then 1 else 0
  {
    WalkEndsAfter64(hasher, calls);
    WalkIsAtHome(hasher, calls, k, ShardOfHash(hasher(k)));
    ReturnedSoFar(calls, |calls|, k, ShardOfHash(hasher(k)));
    assert calls[..|calls|] == calls;
  }

  /** So continuously present keys come exactly once, no key twice, and keys never present do not come. */
  lemma WalkCoversTheKeyspace(hasher: Bytes -> bv64, calls: seq<Call>)
    requires IsWalk(hasher, calls) && Ended(calls)
    ensures forall k :: (forall i :: 0 <= i < |calls| ==> k in calls[i].db) ==> multiset(Returned(calls))[k] == 1
    ensures forall k :: multiset(Returned(calls))[k] <= 1
    ensures forall k :: k in Returned(calls) ==> exists i :: 0 <= i < |calls| && k in calls[i].db && k in calls[i].keys
  {
    WalkEndsAfter64(hasher, calls);
    forall k
      ensures (forall i :: 0 <= i < |calls| ==> k in calls[i].db) ==> multiset(Returned(calls))[k] == 1
      ensures multiset(Returned(calls))[k] <= 1
      ensures k in Returned(calls) ==> exists i :: 0 <= i < |calls| && k in calls[i].db && k in calls[i].keys
    {
      WalkReturnsEachKeyOnce(hasher, calls, k);
      var i := ShardOfHash(hasher(k));
      assert Answered(hasher, calls[i]);
    }
  }
}
