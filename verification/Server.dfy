/** The command arms of server.rs on the sharded store, each proved to do what `LiveCommand` says on the flat map. */
module Server {
  import opened Prelude
  import opened Decimal
  import opened Utf8
  import opened Keyspace
  import opened LogText
  import opened Durability
  import opened Expiry
  import opened Engine
  import P = Protocol

  /** The clock reading given to commands that never look at the clock. */
  const NO_CLOCK: nat := 0

  /** The store, the log channel and the reply after an arm that was to have the effect `r`. */
  ghost predicate Done(db: ShardedDb, r: Result, sent: Bytes, reply: Reply)
    reads db, db.shards
  {
    && db.Valid() && db.Flat() == r.db && reply == r.reply
    && AllLogged(r.log) && db.sent == sent + PrintLog(r.log, Live)
  }

  lemma PrintOne(c: P.Command)
    requires P.Logged(c) && P.InRange(c)
    ensures AllLogged([c]) && PrintLog([c], Live) == PrintRecord(c, Live)
  {
    assert [c][1..] == [];
    assert PrintLog([], Live) == "";
  }

  lemma NothingChanged(db: ShardedDb, c: P.Command, now: nat, reply: Reply)
    requires db.Valid() && SingleKey(c)
    requires LiveCell(Look(db.Flat(), c.key), c, now) == Outcome(Look(db.Flat(), c.key), [], reply)
    ensures Done(db, LiveCommand(db.Flat(), c, now), db.sent, reply)
  {
    PutSame(db.Flat(), c.key);
    assert db.sent + "" == db.sent;
  }

  // ---- Strings ----

  method Set(db: ShardedDb, key: Bytes, value: Bytes) returns (reply: Reply)
    requires db.Valid()
    modifies db, db.shards
    ensures Done(db, old(LiveCommand(db.Flat(), P.Set(key, value), NO_CLOCK)), old(db.sent), reply)
  {
    var shard := db.Guarded(key);
    var entry := Entry(Str(value), None);
    db.Update(key, shard[key := entry], Some(entry));
    PrintOne(P.Set(key, value));
    db.SendRecord(P.Set(key, value));
    reply := Okay;
  }

  method SetEx(db: ShardedDb, key: Bytes, seconds: int, value: Bytes, now: nat) returns (reply: Reply)
    requires db.Valid() && I64_MIN <= seconds <= I64_MAX
    modifies db, db.shards
    ensures Done(db, old(LiveCommand(db.Flat(), P.SetEx(key, seconds, value), now)), old(db.sent), reply)
  {
    var deadline := Deadline(now, seconds);
    if deadline.None? {
      NothingChanged(db, P.SetEx(key, seconds, value), now, Panics);
      return Panics;
    }
    var shard := db.Guarded(key);
    var entry := Entry(Str(value), deadline);
    db.Update(key, shard[key := entry], Some(entry));
    PrintOne(P.SetEx(key, seconds, value));
    db.SendRecord(P.SetEx(key, seconds, value));
    reply := Okay;
  }

  method Get(db: ShardedDb, key: Bytes, now: nat) returns (reply: Reply)
    requires db.Valid()
    modifies db, db.shards
    ensures Done(db, old(LiveCommand(db.Flat(), P.Get(key), now)), old(db.sent), reply)
  {
    var shard := db.Guarded(key);
    var expired := false;
    if key in shard {
      if shard[key].expiresAt.Some? && now > shard[key].expiresAt.value {
        expired := true;
      }
    }
    if expired {
      db.Update(key, shard - {key}, None);
      PrintOne(P.Del(key));
      db.SendRecord(P.Del(key));
      reply := Nil;
    } else {
      reply := if key !in shard then Nil else if shard[key].value.Str? then Bulk(shard[key].value.text) else WRONG_TYPE;
      NothingChanged(db, P.Get(key), now, reply);
    }
  }

  method Del(db: ShardedDb, key: Bytes) returns (reply: Reply)
    requires db.Valid()
    modifies db, db.shards
    ensures Done(db, old(LiveCommand(db.Flat(), P.Del(key), NO_CLOCK)), old(db.sent), reply)
  {
    var shard := db.Guarded(key);
    if key in shard {
      db.Update(key, shard - {key}, None);
      PrintOne(P.Del(key));
      db.SendRecord(P.Del(key));
      reply := Number(1);
    } else {
      reply := Number(0);
      NothingChanged(db, P.Del(key), NO_CLOCK, reply);
    }
  }

  /** The number an INCR starts from, or the error it answers with. */
  method CurrentNumber(shard: Store, key: Bytes) returns (error: Option<Reply>, current: int)
    ensures var c := P.Incr(key);
            IncrOutcome(Look(shard, key), c) ==
            if error.None? then Incremented(c, current) else Outcome(Look(shard, key), [], error.value)
  {
    error, current := None, 0;
    if key in shard {
      match shard[key].value {
        case Str(text) =>
          match P.ParseI64(text) {
            case Some(num) => current := num;
            case None => error := Some(NOT_INTEGER);
          }
        case _ => error := Some(WRONG_KIND);
      }
    }
  }

  method Incr(db: ShardedDb, key: Bytes) returns (reply: Reply)
    requires db.Valid()
    modifies db, db.shards
    ensures Done(db, old(LiveCommand(db.Flat(), P.Incr(key), NO_CLOCK)), old(db.sent), reply)
  {
    var shard := db.Guarded(key);
    var error, current := CurrentNumber(shard, key);
    if error.Some? {
      reply := error.value;
      NothingChanged(db, P.Incr(key), NO_CLOCK, reply);
    } else {
      var newNum := Wrap64(current + 1);
      var entry := Entry(Str(PrintInt(newNum)), None);
      db.Update(key, shard[key := entry], Some(entry));
      PrintOne(P.Incr(key));
      db.SendRecord(P.Incr(key));
      reply := Number(newNum);
    }
  }

  // ---- Lists ----

  method LPush(db: ShardedDb, key: Bytes, value: Bytes) returns (reply: Reply)
    requires db.Valid()
    modifies db, db.shards
    ensures Done(db, old(LiveCommand(db.Flat(), P.LPush(key, value), NO_CLOCK)), old(db.sent), reply)
  {
    var shard := db.Guarded(key);
    var entry := if key in shard then shard[key] else Entry(List([]), None);
    match entry.value {
      case List(items) =>
        var list := [value] + items;
        assert [value] + [] == [value];
        var entry' := entry.(value := List(list));
        db.Update(key, shard[key := entry'], Some(entry'));
        PrintOne(P.LPush(key, value));
        db.SendRecord(P.LPush(key, value));
        reply := Number(|list|);
      case _ =>
        reply := WRONG_KIND_PUSH;
        NothingChanged(db, P.LPush(key, value), NO_CLOCK, reply);
    }
  }

  method RPush(db: ShardedDb, key: Bytes, value: Bytes) returns (reply: Reply)
    requires db.Valid()
    modifies db, db.shards
    ensures Done(db, old(LiveCommand(db.Flat(), P.RPush(key, value), NO_CLOCK)), old(db.sent), reply)
  {
    var shard := db.Guarded(key);
    var entry := if key in shard then shard[key] else Entry(List([]), None);
    if entry.value.List? {
      var list := entry.value.items + [value];
      assert [] + [value] == [value];
      var entry' := entry.(value := List(list));
      db.Update(key, shard[key := entry'], Some(entry'));
      PrintOne(P.RPush(key, value));
      db.SendRecord(P.RPush(key, value));
      reply := Number(|list|);
    } else {
      reply := Silent;
      NothingChanged(db, P.RPush(key, value), NO_CLOCK, reply);
    }
  }

  /** LPOP and RPOP, which differ in the end they pop. */
  method Pop(db: ShardedDb, key: Bytes, front: bool) returns (reply: Reply)
    requires db.Valid()
    modifies db, db.shards
    ensures Done(db, old(LiveCommand(db.Flat(), if front then P.LPop(key) else P.RPop(key), NO_CLOCK)),
                 old(db.sent), reply)
  {
    var command := if front then P.LPop(key) else P.RPop(key);
    var shard := db.Guarded(key);
    reply := Nil;
    if key in shard {
      match shard[key].value {
        case List(items) =>
          if items != [] {
            var value, rest;
            if front {
              value, rest := items[0], items[1..];
            } else {
              value, rest := items[|items| - 1], items[..|items| - 1];
            }
            var entry := shard[key].(value := List(rest));
            db.Update(key, shard[key := entry], Some(entry));
            PrintOne(command);
            db.SendRecord(command);
            return Bulk(value);
          }
        case _ => reply := WRONG_KIND;
      }
    }
    NothingChanged(db, command, NO_CLOCK, reply);
  }

  function Clamp(i: int, lo: int, hi: int): (r: int)
    requires lo <= hi
    ensures lo <= r <= hi
  {
    if i < lo then lo else if i > hi then hi else i
  }

  lemma ClampShifts(i: int, j: int, n: nat)
    requires i > 0 && n > 0
    ensures Clamp(i, 0, n) == Clamp(i - 1, 0, n - 1) + 1
    ensures Clamp(j, Clamp(i, 0, n), n) == Clamp(j - 1, Clamp(i - 1, 0, n - 1), n - 1) + 1
  {
  }

  lemma SliceShifts(items: seq<Bytes>, a: nat, b: nat)
    requires a <= b < |items|
    ensures items[1..][a..b] == items[a + 1..b + 1] && [items[0]] + items[1..][..b] == items[..b + 1]
  {
    assert forall i :: 0 <= i < b - a ==> items[1..][a..b][i] == items[a + 1..b + 1][i];
  }

  lemma BetweenStep(items: seq<Bytes>, base: int, lo: int, hi: int, a: nat, b: nat)
    requires a <= b < |items| && Between(items[1..], base + 1, lo, hi) == items[1..][a..b]
    ensures lo <= base <= hi && a == 0 ==> Between(items, base, lo, hi) == items[..b + 1]
    ensures !(lo <= base <= hi) ==> Between(items, base, lo, hi) == items[a + 1..b + 1]
  {
    SliceShifts(items, a, b);
    assert [] + items[1..][a..b] == items[1..][a..b];
    if a == 0 { assert items[1..][0..b] == items[1..][..b]; }
  }

  /** The elements between two positions are one slice. */
  lemma {:induction false} BetweenSlice(items: seq<Bytes>, base: int, lo: int, hi: int)
    ensures var a := Clamp(lo - base, 0, |items|);
            Between(items, base, lo, hi) == items[a..Clamp(hi + 1 - base, a, |items|)]
  {
    if items != [] {
      var n := |items| - 1;
      var a := Clamp(lo - (base + 1), 0, n);
      BetweenSlice(items[1..], base + 1, lo, hi);
      BetweenStep(items, base, lo, hi, a, Clamp(hi + 1 - (base + 1), a, n));
      if base < lo { ClampShifts(lo - base, hi + 1 - base, |items|); }
      assert items[..Clamp(hi + 1 - base, 0, |items|)] == items[0..Clamp(hi + 1 - base, 0, |items|)];
      assert items[1..1] == items[0..0];
    }
  }

  /** The index arithmetic of LTRIM and LRANGE stays within 32 bits. */
  predicate IsI32(i: int) { I32_MIN <= i <= I32_MAX }

  /**
    The two loops of LTRIM. If they end, what is left is what LRANGE would return, and nothing left means that the key
    is removed. A round of the tail loop on an empty list changes nothing, so it is repeated for ever.
   */
  method TrimList(items: seq<Bytes>, start: int, stop: int) returns (ended: bool, list: seq<Bytes>)
    requires |items| <= I32_MAX && IsI32(start) && IsI32(stop)
    ensures ended <==> !TrimHangs(|items|, start, stop)
    ensures list == if ended then Range(items, start, stop) else []
  {
    ended, list := true, items;
    var len := |list|;
    var s: int := if start < 0 then len + start else start;
    var e: int := if stop < 0 then len + stop else stop;
    assert IsI32(s) && IsI32(e);
    BetweenSlice(items, 0, s, e);
    if s > e || s >= len {
      return true, [];
    }
    s := if s < 0 then 0 else s;
    e := if e > len - 1 then len - 1 else e;
    assert IsI32(e + 1);
    while |list| > e + 1
      invariant |list| <= len && list == items[..|list|] && (e + 1 >= 0 ==> e + 1 <= |list|)
      decreases |list|
    {
      if list == [] {
        return false, [];
      }
      list := list[..|list| - 1];
    }
    for i := 0 to s
      invariant list == items[i..e + 1]
    {
      list := list[1..];
    }
  }

  method LTrim(db: ShardedDb, key: Bytes, start: int, stop: int) returns (reply: Reply)
    requires db.Valid() && IsI32(start) && IsI32(stop)
    requires match Look(db.Flat(), key)
             case Some(Entry(List(items), _)) => |items| <= I32_MAX
             case _ => true
    modifies db, db.shards
    ensures Done(db, old(LiveCommand(db.Flat(), P.LTrim(key, start, stop), NO_CLOCK)), old(db.sent), reply)
  {
    var command := P.LTrim(key, start, stop);
    var shard := db.Guarded(key);
    if key !in shard {
      NothingChanged(db, command, NO_CLOCK, Okay);
      return Okay;
    }
    match shard[key].value {
      case List(items) =>
        var ended, kept := TrimList(items, start, stop);
        if !ended {
          var entry := shard[key].(value := List(kept));
          db.Update(key, shard[key := entry], Some(entry));
          assert db.sent + "" == db.sent;
          return Hangs;
        }
        if kept == [] {
          db.Update(key, shard - {key}, None);
        } else {
          var entry := shard[key].(value := List(kept));
          db.Update(key, shard[key := entry], Some(entry));
        }
        PrintOne(command);
        db.SendRecord(command);
        reply := Okay;
      case _ =>
        reply := WRONG_KIND;
        NothingChanged(db, command, NO_CLOCK, reply);
    }
  }

  /** A clamped stop index as a usize: only on an empty list is it negative. */
  function StopIndex(e: int): int { if e < 0 then e + (USIZE_MAX + 1) else e }

  /** How many indices the element loop of LRANGE probes in a list of this length. */
  function Probes(len: nat, start: int, stop: int): int {
    var s, e := Norm(start, len), Norm(stop, len);
    if s > e || s >= len || e < 0 then 0
    else StopIndex(if e > len - 1 then len - 1 else e) + 1 - (if s < 0 then 0 else s)
  }

  /** Every index from `s` to `last` is probed, whether there is such an element or not. */
  method Gather(items: seq<Bytes>, s: nat, last: int) returns (slice: seq<Bytes>, probes: nat)
    requires s <= |items| && s <= last + 1
    ensures slice == items[s..Clamp(last + 1, s, |items|)]
    ensures probes == last + 1 - s
  {
    slice, probes := [], 0;
    for i := s to last + 1
      invariant slice == items[s..Clamp(i, s, |items|)] && probes == i - s
    {
      probes := probes + 1;
      if i < |items| {
        slice := slice + [items[i]];
      }
    }
  }

  /** The announced number of elements, `e - s + 1` with wrap-around. */
  function CountHeader(s: int, last: int): int { (last - s + 1) % (USIZE_MAX + 1) }

  lemma HeaderCount(len: nat, s: nat, e: int)
    requires len <= I32_MAX && s <= len && (if len == 0 then e == -1 else s <= e < len)
    ensures CountHeader(s, StopIndex(e)) == e + 1 - s == Clamp(StopIndex(e) + 1, s, len) - s
  {
  }

  /** The element loop of LRANGE, and how many indices it probed. */
  method ListSlice(items: seq<Bytes>, start: int, stop: int) returns (slice: seq<Bytes>, probes: nat)
    requires |items| <= I32_MAX && IsI32(start) && IsI32(stop)
    ensures slice == Range(items, start, stop)
    ensures probes == Probes(|items|, start, stop)
  {
    slice, probes := [], 0;
    var len := |items|;
    var s: int := if start < 0 then len + start else start;
    var e: int := if stop < 0 then len + stop else stop;
    assert IsI32(s) && IsI32(e);
    BetweenSlice(items, 0, s, e);
    if s > e || s >= len || e < 0 {
      return;
    }
    s := if s < 0 then 0 else s;
    e := if e > len - 1 then len - 1 else e;
    var last := StopIndex(e);
    slice, probes := Gather(items, s, last);
    HeaderCount(len, s, e);
    assert CountHeader(s, last) == |slice|;
  }

  method LRange(db: ShardedDb, key: Bytes, start: int, stop: int) returns (reply: Reply)
    requires db.Valid() && IsI32(start) && IsI32(stop)
    requires match Look(db.Flat(), key)
             case Some(Entry(List(items), _)) => |items| <= I32_MAX
             case _ => true
    ensures reply == LiveCommand(db.Flat(), P.LRange(key, start, stop), NO_CLOCK).reply
  {
    var shard := db.Guarded(key);
    if key !in shard {
      return Array([]);
    }
    match shard[key].value {
      case List(items) =>
        var slice, _ := ListSlice(items, start, stop);
        reply := BulkArray(slice);
      case _ => reply := WRONG_KIND;
    }
  }

  /**
    The loop probes no more indices than there are elements, and `e - s + 1` does not overflow, except exactly on an
    empty list with a negative start and a stop that is not: there the stop index -1 becomes the largest usize, and the
    loop probes 2^64 indices under the guard before it answers with nothing.
   */
  lemma ProbesAreBounded(len: nat, start: int, stop: int)
    requires len <= I32_MAX && IsI32(start) && IsI32(stop)
    ensures Probes(len, start, stop) <= len <==> !(len == 0 && start < 0 <= stop)
    ensures Probes(len, start, stop) > USIZE_MAX <==> len == 0 && start < 0 <= stop
    ensures len == 0 && start < 0 <= stop ==> Probes(len, start, stop) == USIZE_MAX + 1
  {
  }

  /** LPOP leaves such an empty list behind. */
  lemma PoppedListIsEmpty(k: Bytes, v: Bytes, now: nat)
    ensures var pushed := LiveCommand(map[], P.RPush(k, v), now).db;
            Look(LiveCommand(pushed, P.LPop(k), now).db, k) == Some(Entry(List([]), None))
  {
    assert [v][1..] == [];
  }

  /** Removing at the first matching index is removing the first match. */
  lemma {:induction false} RemoveFirstAt(items: seq<Bytes>, v: Bytes, i: nat)
    requires i < |items| && items[i] == v && v !in items[..i]
    ensures RemoveFirst(items, v) == items[..i] + items[i + 1..]
  {
    if i > 0 {
      assert items[0] == items[..i][0];
      assert items[1..][..i - 1] == items[..i][1..];
      RemoveFirstAt(items[1..], v, i - 1);
    }
  }

  /** `position` and `remove`: the first match goes, if there is one. */
  method RemoveMatch(items: seq<Bytes>, value: Bytes) returns (removed: bool, rest: seq<Bytes>)
    ensures removed == (value in items)
    ensures rest == if removed then RemoveFirst(items, value) else items
  {
    var index := 0;
    while index < |items| && items[index] != value
      invariant index <= |items| && value !in items[..index]
    {
      index := index + 1;
    }
    removed, rest := index < |items|, items;
    if removed {
      RemoveFirstAt(items, value, index);
      rest := items[..index] + items[index + 1..];
    } else {
      assert items[..index] == items;
    }
  }

  /** Whatever the count, one element goes, and the record says one. */
  lemma RemEffect(db: Store, key: Bytes, count: int, value: Bytes)
    requires key in db && db[key].value.List? && value in db[key].value.items
    ensures LiveCommand(db, P.LRem(key, count, value), NO_CLOCK) ==
            Result(db[key := db[key].(value := List(RemoveFirst(db[key].value.items, value)))],
                   [P.LRem(key, 1, value)], Number(1))
  {
  }

  method LRem(db: ShardedDb, key: Bytes, count: int, value: Bytes) returns (reply: Reply)
    requires db.Valid()
    modifies db, db.shards
    ensures Done(db, old(LiveCommand(db.Flat(), P.LRem(key, count, value), NO_CLOCK)), old(db.sent), reply)
  {
    var shard := db.Guarded(key);
    if key in shard && shard[key].value.List? {
      var removed, rest := RemoveMatch(shard[key].value.items, value);
      if removed {
        RemEffect(db.Flat(), key, count, value);
        var entry := shard[key].(value := List(rest));
        db.Update(key, shard[key := entry], Some(entry));
        PrintOne(P.LRem(key, 1, value));
        db.SendRecord(P.LRem(key, 1, value));
        return Number(1);
      }
    }
    reply := Number(0);
    NothingChanged(db, P.LRem(key, count, value), NO_CLOCK, reply);
  }

  // ---- Hashes and sets ----

  method HSet(db: ShardedDb, key: Bytes, field: Bytes, value: Bytes) returns (reply: Reply)
    requires db.Valid()
    modifies db, db.shards
    ensures Done(db, old(LiveCommand(db.Flat(), P.HSet(key, field, value), NO_CLOCK)), old(db.sent), reply)
  {
    var shard := db.Guarded(key);
    var entry := if key in shard then shard[key] else Entry(Hash(map[]), None);
    if entry.value.Hash? {
      var entry' := entry.(value := Hash(entry.value.fields[field := value]));
      db.Update(key, shard[key := entry'], Some(entry'));
      PrintOne(P.HSet(key, field, value));
      db.SendRecord(P.HSet(key, field, value));
      reply := Okay;
    } else {
      reply := WRONG;
      NothingChanged(db, P.HSet(key, field, value), NO_CLOCK, reply);
    }
  }

  method SAdd(db: ShardedDb, key: Bytes, member: Bytes) returns (reply: Reply)
    requires db.Valid()
    modifies db, db.shards
    ensures Done(db, old(LiveCommand(db.Flat(), P.SAdd(key, member), NO_CLOCK)), old(db.sent), reply)
  {
    var shard := db.Guarded(key);
    var entry := if key in shard then shard[key] else Entry(Members({}), None);
    if entry.value.Members? && member !in entry.value.members {
      assert {} + {member} == {member};
      var entry' := entry.(value := Members(entry.value.members + {member}));
      db.Update(key, shard[key := entry'], Some(entry'));
      PrintOne(P.SAdd(key, member));
      db.SendRecord(P.SAdd(key, member));
      reply := Number(1);
    } else {
      reply := Number(0);
      NothingChanged(db, P.SAdd(key, member), NO_CLOCK, reply);
    }
  }

  // ---- Two keys ----

  /** `get_mut` on the source and `pop_back`. */
  function PopBack(shard: Store, source: Bytes): Option<(Bytes, Store)> {
    if source in shard && shard[source].value.List? && shard[source].value.items != [] then
      var items := shard[source].value.items;
      Some((items[|items| - 1], shard[source := shard[source].(value := List(items[..|items| - 1]))]))
    else None
  }

  /** What both arms of RPOPLPUSH leave behind and report. */
  ghost predicate MoveDone(db: ShardedDb, before: Store, source: Bytes, destination: Bytes, popped: Option<Bytes>)
    reads db, db.shards
  {
    && db.Valid()
    && match MoveTail(before, source, destination)
       case Some((v, after)) => popped == Some(v) && db.Flat() == after
       case None => popped == None && db.Flat() == before
  }

  /** `entry`, `or_insert_with` and `push_front` behind a guard. */
  method PushFrontAt(db: ShardedDb, i: nat, shard: Store, key: Bytes, val: Bytes)
    requires db.Valid() && i == db.ShardIndex(key) && shard == db.shards[i]
    modifies db.shards
    ensures db.Valid()
    ensures db.Flat() == Put(old(db.Flat()), key, PushedFront(Look(old(db.Flat()), key), val))
  {
    var _ := db.ReadAt(i, key);
    var entry := if key in shard then shard[key] else Entry(List([]), None);
    if entry.value.List? {
      assert [val] + [] == [val];
      var entry' := entry.(value := List([val] + entry.value.items));
      db.WriteAt(i, key, shard[key := entry'], Some(entry'));
    } else {
      PutSame(db.Flat(), key);
    }
  }

  /** Both keys behind one guard. */
  method MoveSingle(db: ShardedDb, only: nat, source: Bytes, destination: Bytes) returns (poppedVal: Option<Bytes>)
    requires db.Valid() && only == db.ShardIndex(source) == db.ShardIndex(destination)
    modifies db.shards
    ensures MoveDone(db, old(db.Flat()), source, destination, poppedVal)
  {
    poppedVal := None;
    var shard := db.ReadAt(only, source);
    var popped := PopBack(shard, source);
    if popped.Some? {
      var (val, shard1) := popped.value;
      poppedVal := Some(val);
      db.WriteAt(only, source, shard1, Some(shard1[source]));
      PushFrontAt(db, only, shard1, destination, val);
    }
  }

  /** One guard for each key: the first is that of the source. */
  method MoveDouble(db: ShardedDb, first: nat, second: nat, source: Bytes, destination: Bytes)
      returns (poppedVal: Option<Bytes>)
    requires db.Valid() && first == db.ShardIndex(source) && second == db.ShardIndex(destination) && first != second
    modifies db.shards
    ensures MoveDone(db, old(db.Flat()), source, destination, poppedVal)
  {
    poppedVal := None;
    var shardSrc := db.ReadAt(first, source);
    var shardDest := db.ReadAt(second, destination);
    var popped := PopBack(shardSrc, source);
    if popped.Some? {
      var (val, shard1) := popped.value;
      poppedVal := Some(val);
      db.WriteAt(first, source, shard1, Some(shard1[source]));
      PushFrontAt(db, second, shardDest, destination, val);
    }
  }

  /** RPOPLPUSH: the same result under one guard and under two, in whatever order those were locked. */
  method RPopLPush(db: ShardedDb, source: Bytes, destination: Bytes) returns (reply: Reply)
    requires db.Valid()
    modifies db, db.shards
    ensures Done(db, old(LiveCommand(db.Flat(), P.RPopLPush(source, destination), NO_CLOCK)), old(db.sent), reply)
  {
    var guard, _ := db.WriteMultiShards(source, destination);
    var poppedVal;
    match guard {
      case Single(only) => poppedVal := MoveSingle(db, only, source, destination);
      case Double(first, second) => poppedVal := MoveDouble(db, first, second, source, destination);
    }
    match poppedVal {
      case Some(val) =>
        PrintOne(P.RPopLPush(source, destination));
        db.SendRecord(P.RPopLPush(source, destination));
        reply := Bulk(val);
      case None =>
        reply := Nil;
        assert db.sent + "" == db.sent;
    }
  }

  /** A string value as MGET reports it. */
  function StringReply(cell: Cell): Reply {
    match cell
    case Some(Entry(Str(text), _)) => Bulk(text)
    case _ => Nil
  }

  method MGet(db: ShardedDb, keyA: Bytes, keyB: Bytes) returns (reply: Reply)
    requires db.Valid()
    ensures reply == Array([StringReply(Look(db.Flat(), keyA)), StringReply(Look(db.Flat(), keyB))])
  {
    var valA, valB := Nil, Nil;
    var guard, _ := db.ReadMultiShards(keyA, keyB);
    match guard {
      case Single(only) =>
        var shard := db.ReadAt(only, keyA);
        var _ := db.ReadAt(only, keyB);
        if keyA in shard && shard[keyA].value.Str? { valA := Bulk(shard[keyA].value.text); }
        if keyB in shard && shard[keyB].value.Str? { valB := Bulk(shard[keyB].value.text); }
      case Double(first, second) =>
        var shardA := db.ReadAt(first, keyA);
        var shardB := db.ReadAt(second, keyB);
        if keyA in shardA && shardA[keyA].value.Str? { valA := Bulk(shardA[keyA].value.text); }
        if keyB in shardB && shardB[keyB].value.Str? { valB := Bulk(shardB[keyB].value.text); }
    }
    reply := Array([valA, valB]);
  }

  /** For a key that is not expired MGET answers as GET does, with nil for another type. */
  lemma MGetLikeGet(db: Store, k: Bytes, now: nat)
    requires k in db ==> !Expired(db[k], now)
    ensures var r := LiveCommand(db, P.Get(k), now).reply;
            StringReply(Look(db, k)) == if r == WRONG_TYPE then Nil else r
  {
  }

  /** MGET reads expired strings: it answers as after a sweep exactly when there is none under the key. */
  lemma MGetReadsExpired(db: Store, k: Bytes, now: nat)
    ensures StringReply(Look(db, k)) == StringReply(Look(Swept(db, now), k)) <==>
            !(k in db && db[k].value.Str? && Expired(db[k], now))
  {
  }

  // ---- SCAN ----

  function NextCursor(cursor: nat): nat { if cursor >= 63 then 0 else cursor + 1 }

  /** What MATCH leaves of a key: the regex crate decides, and only for keys that are UTF-8. */
  predicate Matches(matcher: Option<Bytes -> bool>, k: Bytes) { matcher.Some? ==> IsUtf8(k) && matcher.value(k) }

  /** `retain`: the keys that match, in their order. */
  method Retain(keys: seq<Bytes>, matcher: Option<Bytes -> bool>, ghost s: set<Bytes>) returns (kept: seq<Bytes>)
    requires Lists(keys, s)
    ensures Lists(kept, set k | k in s && Matches(matcher, k))
  {
    kept := [];
    for i := 0 to |keys|
      invariant Lists(kept, set k | k in keys[..i] && Matches(matcher, k))
    {
      var key := keys[i];
      assert keys[..i + 1] == keys[..i] + [key];
      assert key !in keys[..i];
      if Matches(matcher, key) {
        ListsAppend(kept, [key], (set k | k in keys[..i] && Matches(matcher, k)), {key});
        kept := kept + [key];
      }
      assert (set k | k in keys[..i + 1] && Matches(matcher, k)) ==
             (set k | k in keys[..i] && Matches(matcher, k)) + if Matches(matcher, key) then {key} else {};
    }
    assert keys[..|keys|] == keys;
  }

  /**
    One SCAN call: the matching keys of the cursor's shard and the next cursor. There is no matcher without MATCH, and
    none when the pattern is no regular expression.
   */
  method Scan(db: ShardedDb, cursor: nat, matcher: Option<Bytes -> bool>)
      returns (next: nat, keys: seq<Bytes>, reply: Reply)
    requires db.Valid()
    ensures next == NextCursor(cursor)
    ensures Lists(keys, set k | k in db.Flat().Keys && db.ShardIndex(k) == cursor && Matches(matcher, k))
    ensures reply == Array([Bulk(PrintNat(next)), BulkArray(keys)])
  {
    if cursor >= 64 {
      next, keys := 0, [];
    } else {
      var all := db.ScanShard(cursor);
      ghost var here := set k | k in db.Flat().Keys && db.ShardIndex(k) == cursor;
      keys := Retain(all, matcher, here);
      assert (set k | k in here && Matches(matcher, k)) ==
             (set k | k in db.Flat().Keys && db.ShardIndex(k) == cursor && Matches(matcher, k));
      next := if cursor == 63 then 0 else cursor + 1;
    }
    reply := Array([Bulk(PrintNat(next)), BulkArray(keys)]);
  }

  /** List lengths fit in an i32, and the numbers of the command in the types of its parser. */
  predicate Servable(db: Store, c: P.Command) {
    && P.InRange(c)
    && (c.LTrim? || c.LRange? ==>
          match Look(db, c.key)
          case Some(Entry(List(items), _)) => |items| <= I32_MAX
          case _ => true)
  }

  /** The dispatch of one parsed command to its arm. */
  method ExecuteModelled(db: ShardedDb, c: P.Command, now: nat) returns (reply: Reply)
    requires db.Valid() && Servable(db.Flat(), c) && Modelled(c)
    modifies db, db.shards
    ensures Done(db, old(LiveCommand(db.Flat(), c, now)), old(db.sent), reply)
  {
    match c {
      case Set(key, value) => reply := Set(db, key, value);
      case SetEx(key, seconds, value) => reply := SetEx(db, key, seconds, value, now);
      case Get(key) => reply := Get(db, key, now);
      case Del(key) => reply := Del(db, key);
      case Incr(key) => reply := Incr(db, key);
      case LPush(key, value) => reply := LPush(db, key, value);
      case RPush(key, value) => reply := RPush(db, key, value);
      case LPop(key) => reply := Pop(db, key, true);
      case RPop(key) => reply := Pop(db, key, false);
      case LTrim(key, start, stop) => reply := LTrim(db, key, start, stop);
      case LRange(key, start, stop) =>
        reply := LRange(db, key, start, stop);
        NothingChanged(db, c, now, reply);
      case LRem(key, count, value) => reply := LRem(db, key, count, value);
      case HSet(key, field, value) => reply := HSet(db, key, field, value);
      case SAdd(key, member) => reply := SAdd(db, key, member);
      case RPopLPush(source, destination) => reply := RPopLPush(db, source, destination);
    }
  }

  /** Any command: one whose arm touches neither the store nor the log answers here with nothing. */
  method Execute(db: ShardedDb, c: P.Command, now: nat) returns (reply: Reply)
    requires db.Valid() && Servable(db.Flat(), c)
    modifies db, db.shards
    ensures Done(db, old(LiveCommand(db.Flat(), c, now)), old(db.sent), reply)
  {
    if Modelled(c) {
      reply := ExecuteModelled(db, c, now);
    } else {
      reply := Silent;
      assert db.sent + "" == db.sent;
    }
  }

  ghost predicate AllServable(db: Store, run: seq<Timed>) {
    forall i :: 0 <= i < |run| ==> Servable(LiveRun(db, run[..i]).db, run[i].command)
  }

  /** The replies to the commands of a run, in order. */
  function Replies(db: Store, run: seq<Timed>): seq<Reply> {
    if run == [] then []
    else
      var front, last := run[..|run| - 1], run[|run| - 1];
      Replies(db, front) + [LiveCommand(LiveRun(db, front).db, last.command, last.now).reply]
  }

  /** The store and the channel after the commands of a run. */
  ghost predicate Served(db: ShardedDb, flat: Store, run: seq<Timed>, sent: Bytes)
    reads db, db.shards
  {
    var h := LiveRun(flat, run);
    db.Valid() && db.Flat() == h.db && AllLogged(h.log) && db.sent == sent + PrintLog(h.log, Live)
  }

  lemma SentNext(sent: Bytes, a: seq<P.Command>, b: seq<P.Command>)
    requires AllLogged(a) && AllLogged(b)
    ensures AllLogged(a + b) && (sent + PrintLog(a, Live)) + PrintLog(b, Live) == sent + PrintLog(a + b, Live)
  {
    PrintLogAppend(a, b, Live);
    AppendAssociates(sent, PrintLog(a, Live), PrintLog(b, Live));
  }

  lemma RunNext(flat: Store, run: seq<Timed>, n: nat)
    requires n < |run| && AllServable(flat, run)
    ensures run[..n + 1] == run[..n] + [run[n]]
    ensures var h := LiveRun(flat, run[..n]);
            var r := LiveCommand(h.db, run[n].command, run[n].now);
            && Servable(h.db, run[n].command)
            && LiveRun(flat, run[..n + 1]) == History(r.db, h.log + r.log)
            && Replies(flat, run[..n + 1]) == Replies(flat, run[..n]) + [r.reply]
  {
    assert run[..n + 1] == run[..n] + [run[n]];
    assert (run[..n] + [run[n]])[..n] == run[..n];
    RunOf(flat, run[..n], run[n]);
  }

  /** The next command of the run, and its record before the one after it. */
  method ServeNext(db: ShardedDb, run: seq<Timed>, n: nat, ghost flat: Store, ghost sent: Bytes)
      returns (reply: Reply)
    requires n < |run| && AllServable(flat, run) && Served(db, flat, run[..n], sent)
    modifies db, db.shards
    ensures Served(db, flat, run[..n + 1], sent)
    ensures Replies(flat, run[..n + 1]) == Replies(flat, run[..n]) + [reply]
  {
    RunNext(flat, run, n);
    ghost var h := LiveRun(flat, run[..n]);
    ghost var r := LiveCommand(h.db, run[n].command, run[n].now);
    reply := Execute(db, run[n].command, run[n].now);
    SentNext(sent, h.log, r.log);
  }

  lemma NothingServed(db: ShardedDb)
    requires db.Valid()
    ensures Served(db, db.Flat(), [], db.sent)
  {
    assert db.sent + PrintLog([], Live) == db.sent;
  }

  /** The task that serves the connection is gone, or stays in this arm for ever. */
  predicate Stops(reply: Reply) { reply.Panics? || reply.Hangs? }

  /**
    A connection's loop: the commands one after the other, each record sent before the next command, until a command
    never comes back.
   */
  method Serve(db: ShardedDb, run: seq<Timed>) returns (replies: seq<Reply>)
    requires db.Valid() && AllServable(db.Flat(), run)
    modifies db, db.shards
    ensures |replies| <= |run| && Served(db, old(db.Flat()), run[..|replies|], old(db.sent))
    ensures replies == Replies(old(db.Flat()), run[..|replies|])
    ensures |replies| < |run| ==> replies != [] && Stops(replies[|replies| - 1])
  {
    ghost var flat, sent := db.Flat(), db.sent;
    replies := [];
    NothingServed(db);
    assert run[..0] == [];
    while |replies| < |run|
      invariant |replies| <= |run|
      invariant Served(db, flat, run[..|replies|], sent) && replies == Replies(flat, run[..|replies|])
    {
      var reply := ServeNext(db, run, |replies|, flat, sent);
      replies := replies + [reply];
      if Stops(reply) {
        return;
      }
    }
  }
}
