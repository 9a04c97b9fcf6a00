/** Start-up recovery of main.rs: reading the log file line by line into the sharded store. */
module Recovery {
  import opened Prelude
  import opened Decimal
  import opened Keyspace
  import opened LogText
  import opened Engine
  import opened Server
  import Tokenizer
  import P = Protocol
  import D = Durability

  /** Whether replay counts the record as restored. */
  predicate Restores(db: Store, c: P.Command) {
    match c
    case Set(_, _) => true
    case SetEx(_, _, _) => true
    case Del(_) => true
    case Incr(_) => true
    case LPush(k, _) => k in db ==> db[k].value.List?
    case RPush(k, _) => k in db ==> db[k].value.List?
    case LPop(k) => k in db && db[k].value.List?
    case RPop(k) => k in db && db[k].value.List?
    case HSet(k, _, _) => k in db ==> db[k].value.Hash?
    case SAdd(k, _) => k in db ==> db[k].value.Members?
    case LRem(k, _, v) => k in db && db[k].value.List? && v in db[k].value.items
    case RPopLPush(s, d) => MoveTail(db, s, d).Some? && (d in db ==> db[d].value.List?)
    case _ => false
  }

  /** What a live command logged is counted in replay, but for LTRIM and a move whose element is lost. */
  lemma LoggedIsRestored(db: Store, replayed: Store, c: P.Command, now: nat)
    requires Similar(db, replayed) && P.InRange(c) && LiveCommand(db, c, now).log != []
    ensures LiveCommand(db, c, now).log == [D.RecordOf(c)]
    ensures Restores(replayed, D.RecordOf(c)) <==>
            !c.LTrim? && (c.RPopLPush? && c.destination in db ==> db[c.destination].value.List?)
  {
    D.LiveRecords(db, c, now);
    if c.RPopLPush? {
      assert SimilarCell(Look(db, c.source), Look(replayed, c.source));
      assert SimilarCell(Look(db, c.destination), Look(replayed, c.destination));
    } else {
      assert SimilarCell(Look(db, c.key), Look(replayed, c.key));
    }
  }

  /** Replay of INCR starts again from zero whatever is there, if it is no number. */
  lemma IncrStartsAgain(db: Store, k: Bytes, now: nat)
    requires k in db && db[k].value.Str? ==> P.ParseI64(db[k].value.text).None?
    ensures ReplayCommand(db, P.Incr(k), now) == Some(db[k := Entry(Str("1"), None)])
  {
    assert PrintInt(1) == "1";
  }

  /** How many records of the log are counted, up to the one that makes replay panic. */
  function RestoredCount(db: Store, cs: seq<P.Command>, clock: nat -> nat, i: nat): nat
    decreases |cs|
  {
    if cs == [] then 0
    else
      match ReplayCommand(db, cs[0], clock(i))
      case None => 0
      case Some(next) => (if Restores(db, cs[0]) then 1 else 0) + RestoredCount(next, cs[1..], clock, i + 1)
  }

  /** The store after an arm of replay, and whether the arm counted. */
  ghost predicate ReplayDone(db: ShardedDb, before: Store, c: P.Command, now: nat, counted: bool)
    reads db, db.shards
  {
    db.Valid() && ReplayCommand(before, c, now) == Some(db.Flat()) && counted == Restores(before, c)
  }

  /** Replace the entry under a key. */
  method Insert(db: ShardedDb, key: Bytes, entry: Entry)
    requires db.Valid()
    modifies db.shards
    ensures db.Valid() && db.Flat() == old(db.Flat())[key := entry]
  {
    var shard := db.Guarded(key);
    db.Update(key, shard[key := entry], Some(entry));
  }

  method Remove(db: ShardedDb, key: Bytes)
    requires db.Valid()
    modifies db.shards
    ensures db.Valid() && db.Flat() == old(db.Flat()) - {key}
  {
    var shard := db.Guarded(key);
    db.Update(key, shard - {key}, None);
  }

  /** The entry under a key, if there is one. */
  method Find(db: ShardedDb, key: Bytes) returns (cell: Cell)
    requires db.Valid()
    ensures cell == Look(db.Flat(), key)
  {
    var shard := db.Guarded(key);
    cell := Look(shard, key);
  }

  /** The number replay counts on from: anything that is no number counts as zero. */
  method CountedNumber(cell: Cell) returns (current: int)
    ensures forall k, now :: ReplayCell(cell, P.Incr(k), now) == Some(Entry(Str(PrintInt(Wrap64(current + 1))), None))
  {
    current := 0;
    if cell.Some? && cell.value.value.Str? {
      match P.ParseI64(cell.value.value.text) {
        case Some(n) => current := n;
        case None =>
      }
    }
  }

  method ReplayIncr(db: ShardedDb, key: Bytes, now: nat) returns (counted: bool)
    requires db.Valid()
    modifies db.shards
    ensures ReplayDone(db, old(db.Flat()), P.Incr(key), now, counted)
  {
    var cell := Find(db, key);
    var current := CountedNumber(cell);
    var entry := Entry(Str(PrintInt(Wrap64(current + 1))), None);
    assert ReplayCell(cell, P.Incr(key), now) == Some(entry);
    Insert(db, key, entry);
    counted := true;
  }

  /** Get or create the list and push to its front, unless the key holds another type. */
  method PushFront(db: ShardedDb, key: Bytes, v: Bytes) returns (counted: bool)
    requires db.Valid()
    modifies db.shards
    ensures db.Valid()
    ensures db.Flat() == Put(old(db.Flat()), key, PushedFront(Look(old(db.Flat()), key), v))
    ensures counted == (key in old(db.Flat()) ==> old(db.Flat())[key].value.List?)
  {
    var target := Find(db, key);
    var entry := if target.Some? then target.value else Entry(List([]), None);
    counted := entry.value.List?;
    if counted {
      assert [v] + [] == [v];
      Insert(db, key, entry.(value := List([v] + entry.value.items)));
    } else {
      PutSame(db.Flat(), key);
    }
  }

  method ReplayLPush(db: ShardedDb, key: Bytes, value: Bytes, now: nat) returns (counted: bool)
    requires db.Valid()
    modifies db.shards
    ensures ReplayDone(db, old(db.Flat()), P.LPush(key, value), now, counted)
  {
    counted := PushFront(db, key, value);
  }

  method ReplayRPush(db: ShardedDb, key: Bytes, value: Bytes, now: nat) returns (counted: bool)
    requires db.Valid()
    modifies db.shards
    ensures ReplayDone(db, old(db.Flat()), P.RPush(key, value), now, counted)
  {
    var cell := Find(db, key);
    var entry := if cell.Some? then cell.value else Entry(List([]), None);
    counted := entry.value.List?;
    if counted {
      assert [] + [value] == [value];
      Insert(db, key, entry.(value := List(entry.value.items + [value])));
    } else {
      PutSame(db.Flat(), key);
    }
  }

  method ReplayPop(db: ShardedDb, key: Bytes, front: bool, now: nat) returns (counted: bool)
    requires db.Valid()
    modifies db.shards
    ensures ReplayDone(db, old(db.Flat()), if front then P.LPop(key) else P.RPop(key), now, counted)
  {
    var cell := Find(db, key);
    counted := cell.Some? && cell.value.value.List?;
    if counted {
      var items := cell.value.value.items;
      if items != [] {
        items := if front then items[1..] else items[..|items| - 1];
      }
      Insert(db, key, cell.value.(value := List(items)));
    } else {
      PutSame(db.Flat(), key);
    }
  }

  method ReplayHSet(db: ShardedDb, key: Bytes, field: Bytes, value: Bytes, now: nat) returns (counted: bool)
    requires db.Valid()
    modifies db.shards
    ensures ReplayDone(db, old(db.Flat()), P.HSet(key, field, value), now, counted)
  {
    var cell := Find(db, key);
    var entry := if cell.Some? then cell.value else Entry(Hash(map[]), None);
    counted := entry.value.Hash?;
    if counted {
      Insert(db, key, entry.(value := Hash(entry.value.fields[field := value])));
    } else {
      PutSame(db.Flat(), key);
    }
  }

  lemma AddedMember(db: Store, key: Bytes, member: Bytes, now: nat)
    ensures var entry := if key in db then db[key] else Entry(Members({}), None);
            ReplayCommand(db, P.SAdd(key, member), now) ==
            Some(if entry.value.Members? then db[key := entry.(value := Members(entry.value.members + {member}))]
                 else db)
  {
    assert {} + {member} == {member};
    PutSame(db, key);
  }

  method ReplaySAdd(db: ShardedDb, key: Bytes, member: Bytes, now: nat) returns (counted: bool)
    requires db.Valid()
    modifies db.shards
    ensures ReplayDone(db, old(db.Flat()), P.SAdd(key, member), now, counted)
  {
    var cell := Find(db, key);
    var entry := if cell.Some? then cell.value else Entry(Members({}), None);
    counted := entry.value.Members?;
    AddedMember(db.Flat(), key, member, now);
    if counted {
      Insert(db, key, entry.(value := Members(entry.value.members + {member})));
    }
  }

  lemma {:induction false} NothingToRemove(items: seq<Bytes>, v: Bytes)
    requires v !in items
    ensures RemoveFirst(items, v) == items
  {
    if items != [] { NothingToRemove(items[1..], v); }
  }

  lemma Removed(db: Store, key: Bytes, count: int, v: Bytes, now: nat)
    requires key in db && db[key].value.List?
    ensures var items := db[key].value.items;
            var rest := if v in items then RemoveFirst(items, v) else items;
            ReplayCommand(db, P.LRem(key, count, v), now) == Some(db[key := db[key].(value := List(rest))])
  {
    if v !in db[key].value.items { NothingToRemove(db[key].value.items, v); }
  }

  method ReplayLRem(db: ShardedDb, key: Bytes, count: int, value: Bytes, now: nat) returns (counted: bool)
    requires db.Valid()
    modifies db.shards
    ensures ReplayDone(db, old(db.Flat()), P.LRem(key, count, value), now, counted)
  {
    var cell := Find(db, key);
    counted := false;
    if cell.Some? && cell.value.value.List? {
      var rest;
      counted, rest := RemoveMatch(cell.value.value.items, value);
      Removed(db.Flat(), key, count, value, now);
      Insert(db, key, cell.value.(value := List(rest)));
    } else {
      PutSame(db.Flat(), key);
    }
  }

  lemma MovedTwice(db: Store, source: Bytes, destination: Bytes, now: nat)
    requires source in db && db[source].value.List? && db[source].value.items != []
    ensures var items := db[source].value.items;
            var popped := db[source := db[source].(value := List(items[..|items| - 1]))];
            var after := Put(popped, destination, PushedFront(Look(popped, destination), items[|items| - 1]));
            && ReplayCommand(db, P.RPopLPush(source, destination), now) == Some(after)
            && (Restores(db, P.RPopLPush(source, destination)) <==>
                destination in popped ==> popped[destination].value.List?)
  {
  }

  method ReplayMove(db: ShardedDb, source: Bytes, destination: Bytes, now: nat) returns (counted: bool)
    requires db.Valid()
    modifies db.shards
    ensures ReplayDone(db, old(db.Flat()), P.RPopLPush(source, destination), now, counted)
  {
    counted := false;
    var cell := Find(db, source);
    if cell.Some? && cell.value.value.List? && cell.value.value.items != [] {
      var items := cell.value.value.items;
      MovedTwice(db.Flat(), source, destination, now);
      Insert(db, source, cell.value.(value := List(items[..|items| - 1])));
      counted := PushFront(db, destination, items[|items| - 1]);
    }
  }

  /** Replay has no arm for the other commands, LTRIM among them. */
  predicate HasArm(c: P.Command) {
    c.Set? || c.SetEx? || c.Del? || c.Incr? || c.LPush? || c.RPush? || c.LPop? || c.RPop? || c.HSet? || c.SAdd? ||
    c.LRem? || c.RPopLPush?
  }

  lemma WithoutArm(db: Store, c: P.Command, now: nat)
    requires !HasArm(c)
    ensures ReplayCommand(db, c, now) == Some(db) && !Restores(db, c)
  {
    if SingleKey(c) { PutSame(db, c.key); }
  }

  method ReplaySetEx(db: ShardedDb, key: Bytes, seconds: int, value: Bytes, now: nat) returns (ok: bool)
    requires db.Valid()
    modifies db.shards
    ensures ok == Deadline(now, seconds).Some?
    ensures ok ==> ReplayDone(db, old(db.Flat()), P.SetEx(key, seconds, value), now, true)
  {
    var deadline := Deadline(now, seconds);
    ok := deadline.Some?;
    if ok {
      Insert(db, key, Entry(Str(value), deadline));
    }
  }

  /** One command of the log; not ok means that computing a deadline panicked. */
  method ReplayOneCommand(db: ShardedDb, c: P.Command, now: nat) returns (ok: bool, counted: bool)
    requires db.Valid()
    modifies db.shards
    ensures ok ==> ReplayDone(db, old(db.Flat()), c, now, counted)
    ensures !ok ==> ReplayCommand(old(db.Flat()), c, now).None?
  {
    ok, counted := true, true;
    if !HasArm(c) {
      WithoutArm(db.Flat(), c, now);
      return true, false;
    }
    match c {
      case Set(k, v) => Insert(db, k, Entry(Str(v), None));
      case SetEx(k, s, v) =>
        ok := ReplaySetEx(db, k, s, v, now);
        counted := ok;
      case Del(k) => Remove(db, k);
      case Incr(k) => counted := ReplayIncr(db, k, now);
      case LPush(k, v) => counted := ReplayLPush(db, k, v, now);
      case RPush(k, v) => counted := ReplayRPush(db, k, v, now);
      case LPop(k) => counted := ReplayPop(db, k, true, now);
      case RPop(k) => counted := ReplayPop(db, k, false, now);
      case HSet(k, f, v) => counted := ReplayHSet(db, k, f, v, now);
      case SAdd(k, member) => counted := ReplaySAdd(db, k, member, now);
      case LRem(k, n, v) => counted := ReplayLRem(db, k, n, v, now);
      case RPopLPush(s, d) => counted := ReplayMove(db, s, d, now);
    }
  }

  lemma ParseLinesFrom(lines: seq<Bytes>, i: nat)
    requires i < |lines|
    ensures ParseLines(lines[i..]) == [P.ParseCommand(Tokenizer.Tokens(lines[i]))] + ParseLines(lines[i + 1..])
  {
    assert lines[i..][1..] == lines[i + 1..];
  }

  /** Every line is tokenized, parsed and carried out, the i-th at the time `clock(i)`. */
  method ReplayAof(db: ShardedDb, text: Bytes, clock: nat -> nat) returns (ok: bool, count: nat)
    requires db.Valid()
    modifies db.shards
    ensures ok <==> ClockReplayable(ParseLog(text), clock, 0)
    ensures ok ==> db.Valid() && ReplayClocked(old(db.Flat()), ParseLog(text), clock, 0) == Some(db.Flat())
    ensures count == RestoredCount(old(db.Flat()), ParseLog(text), clock, 0)
  {
    ok, count := true, 0;
    ghost var before := db.Flat();
    var lines := FileLines(text);
    ClockedPanics(before, ParseLog(text), clock, 0);
    assert lines[0..] == lines;
    for i := 0 to |lines|
      invariant db.Valid()
      invariant ReplayClocked(before, ParseLog(text), clock, 0) ==
                ReplayClocked(db.Flat(), ParseLines(lines[i..]), clock, i)
      invariant RestoredCount(before, ParseLog(text), clock, 0) ==
                count + RestoredCount(db.Flat(), ParseLines(lines[i..]), clock, i)
    {
      ParseLinesFrom(lines, i);
      var parts := Tokenizer.Tokenize(lines[i]);
      var command := P.ParseCommand(parts);
      assert ([command] + ParseLines(lines[i + 1..]))[1..] == ParseLines(lines[i + 1..]);
      var done, counted := ReplayOneCommand(db, command, clock(i));
      if !done { return false, count; }
      if counted { count := count + 1; }
    }
  }
}
